/** What the current review service does to the store, as functions from the
    tables before a call to the result and the tables after it. A failed call
    leaves the tables as they were (the transaction rolls back). */
module ReviewSpec {

  import opened Common
  import opened SrsStates
  import opened SrsRule
  import opened Sessions
  import opened Events
  import opened Store

  /** registerEvent gives up after this many optimistic-lock conflicts. */
  const MAX_ATTEMPTS: nat := 3

  datatype EventRequest = EventRequest(reviewId: Option<SessionId>, cardId: CardId, result: int, elapsedMs: int)

  datatype FinishRequest = FinishRequest(endedAt: Option<Instant>, totalCards: int, correct: int, incorrect: int, durationSec: int)

  datatype SessionDto = SessionDto(
    id: SessionId, deckId: DeckId, startedAt: Instant, endedAt: Option<Instant>,
    totalCards: int, correct: int, incorrect: int, durationSec: int)

  datatype EventDto = EventDto(id: nat, event: EventRow)

  /** toDto(ReviewSession): every column, with the id. */
  function ToSessionDto(id: SessionId, r: SessionRow): (d: SessionDto)
    ensures d.id == id && d.deckId == r.deckId && d.startedAt == r.startedAt && d.endedAt == r.endedAt
    ensures d.totalCards == r.totalCards && d.correct == r.correct
    ensures d.incorrect == r.incorrect && d.durationSec == r.durationSec
  {
    SessionDto(id, r.deckId, r.startedAt, r.endedAt, r.totalCards, r.correct, r.incorrect, r.durationSec)
  }

  /** getSession. */
  function GetSession(t: Tables, id: SessionId): (r: Result<SessionDto>)
    ensures r.Err? <==> id !in t.sessions
    ensures r.Err? ==> r.error == NoSuchElement
    ensures r.Ok? ==> r.value == ToSessionDto(id, t.sessions[id])
  {
    if id !in t.sessions then Err(NoSuchElement) else Ok(ToSessionDto(id, t.sessions[id]))
  }

  // ---------------------------------------------------------------------
  // createSession and finishSession
  // ---------------------------------------------------------------------

  /** createSession: an unknown deck is an error; otherwise a new session of
      the deck, started at the requested time or now, with no end time and
      every counter at 0, stored under a fresh key. */
  function CreateSession(t: Tables, deck: DeckId, startedAt: Option<Instant>, now: Instant): (r: (Result<SessionDto>, Tables))
    ensures r.0.Err? <==> deck !in t.decks
    ensures r.0.Err? ==> r.0.error == NoSuchElement && r.1 == t
    ensures r.0.Ok? ==>
              var row := SessionRow(deck, if startedAt.Some? then startedAt.value else now, None, 0, 0, 0, 0);
              && r.0.value == ToSessionDto(t.nextId, row)
              && r.1 == SessionInserted(t, row)
  {
    if deck !in t.decks then (Err(NoSuchElement), t)
    else
      var row := SessionRow(deck, if startedAt.Some? then startedAt.value else now, None, 0, 0, 0, 0);
      (Ok(ToSessionDto(t.nextId, row)), SessionInserted(t, row))
  }

  /** finishSession: an unknown session, a session already finished, or
      counters in the request that do not add up in int arithmetic are errors, and leave the
      session untouched; otherwise the session ends at the requested time (or
      now) and takes the request's counters and duration as they are. */
  function FinishSession(t: Tables, id: SessionId, req: FinishRequest, now: Instant): (r: (Result<SessionDto>, Tables))
    ensures id !in t.sessions ==> r == (Err(NoSuchElement), t)
    ensures id in t.sessions && !InProgress(t.sessions[id]) ==> r == (Err(IllegalState), t)
    ensures id in t.sessions && InProgress(t.sessions[id]) && req.totalCards != IntValue(req.correct + req.incorrect)
            ==> r == (Err(IllegalArgument), t)
    ensures r.0.Ok? <==> id in t.sessions && InProgress(t.sessions[id]) && req.totalCards == IntValue(req.correct + req.incorrect)
    ensures r.0.Ok? ==>
              id in r.1.sessions &&
              var row := r.1.sessions[id];
              && r.1 == SessionWritten(t, id, row)
              && row.endedAt == Some(if req.endedAt.Some? then req.endedAt.value else now)
              && row.deckId == t.sessions[id].deckId && row.startedAt == t.sessions[id].startedAt
              && row.totalCards == req.totalCards && row.correct == req.correct
              && row.incorrect == req.incorrect && row.durationSec == req.durationSec
              && r.0.value == ToSessionDto(id, row)
  {
    if id !in t.sessions then (Err(NoSuchElement), t)
    else
      var s := t.sessions[id];
      if s.endedAt.Some? then (Err(IllegalState), t)
      else
        var ended := if req.endedAt.Some? then req.endedAt.value else now;
        var row := s.(endedAt := Some(ended), totalCards := req.totalCards, correct := req.correct,
                      incorrect := req.incorrect, durationSec := req.durationSec);
        if req.totalCards != IntValue(req.correct + req.incorrect) then (Err(IllegalArgument), t)
        else (Ok(ToSessionDto(id, row)), SessionWritten(t, id, row))
  }

  /** A session can be finished once: a second finish fails and changes
      nothing. */
  lemma {:induction false} FinishTwiceFails(t: Tables, id: SessionId, first: FinishRequest, second: FinishRequest, now: Instant, later: Instant)
    requires FinishSession(t, id, first, now).0.Ok?
    ensures var t1 := FinishSession(t, id, first, now).1;
            FinishSession(t1, id, second, later) == (Err(IllegalState), t1)
  {
  }

  /** The request record bounds each counter below by @Min(0), which the
      endpoint checks with @Valid. For such ints the sum of correct and
      incorrect either fits or wraps to a negative int, so the int check
      accepts exactly the counters whose exact sum is the total. */
  lemma {:induction false} ValidatedCountersCheckExactSum(req: FinishRequest)
    requires 0 <= req.totalCards <= INT_MAX && 0 <= req.correct <= INT_MAX && 0 <= req.incorrect <= INT_MAX
    ensures req.totalCards == IntValue(req.correct + req.incorrect) <==> req.totalCards == req.correct + req.incorrect
  {
  }

  /** Without that validation the int sum wraps: 2^31 - 1 correct and one
      incorrect answer add up to a total of -2^31, and the finish succeeds. */
  lemma {:induction false} UnvalidatedCountersWrap(t: Tables, id: SessionId, now: Instant)
    requires id in t.sessions && InProgress(t.sessions[id])
    ensures FinishSession(t, id, FinishRequest(None, INT_MIN, INT_MAX, 1, 0), now).0.Ok?
  {
  }

  /** Finishing overwrites the counters the answers built up: the stored
      counters are the request's, whatever was counted before. */
  lemma {:induction false} FinishDiscardsCounts(t: Tables, id: SessionId, req: FinishRequest, now: Instant)
    requires id in t.sessions && InProgress(t.sessions[id])
    requires req.totalCards == IntValue(req.correct + req.incorrect)
    ensures FinishSession(t, id, req, now).1.sessions[id].totalCards == req.totalCards
    ensures FinishSession(t, id, req, now).1.sessions[id].correct == req.correct
  {
  }

  /** Creating and finishing sessions keep the store's invariants; in
      particular a finished session's counters still add up. */
  lemma {:induction false} SessionChangesKeepTablesValid(t: Tables, deck: DeckId, startedAt: Option<Instant>, id: SessionId,
                                      req: FinishRequest, now: Instant)
    requires TablesValid(t)
    ensures TablesValid(CreateSession(t, deck, startedAt, now).1)
    ensures TablesValid(FinishSession(t, id, req, now).1)
  {
    if deck in t.decks {
      var row := SessionRow(deck, if startedAt.Some? then startedAt.value else now, None, 0, 0, 0, 0);
      SessionInsertedValid(t, row);
    }
    if FinishSession(t, id, req, now).0.Ok? {
      var row := FinishSession(t, id, req, now).1.sessions[id];
      SessionWrittenValid(t, id, row);
    }
  }

  // ---------------------------------------------------------------------
  // registerEventOnce
  // ---------------------------------------------------------------------

  /** The checks of one attempt, in the order the service makes them: the
      card exists, the given session exists, it is still in progress, and it
      belongs to the card's deck. */
  function Precheck(t: Tables, req: EventRequest): (e: Option<Error>)
    ensures e.None? <==> req.cardId in t.cards &&
                         (req.reviewId.Some? ==> && req.reviewId.value in t.sessions
                                                 && InProgress(t.sessions[req.reviewId.value])
                                                 && t.sessions[req.reviewId.value].deckId == t.cards[req.cardId].deckId)
    ensures req.cardId !in t.cards ==> e == Some(NoSuchElement)
  {
    if req.cardId !in t.cards then Some(NoSuchElement)
    else if req.reviewId.None? then None
    else if req.reviewId.value !in t.sessions then Some(NoSuchElement)
    else
      var s := t.sessions[req.reviewId.value];
      if s.endedAt.Some? then Some(IllegalState)
      else if s.deckId != t.cards[req.cardId].deckId then Some(IllegalArgument)
      else None
  }

  /** The stored state of the card, or a fresh one due now. */
  function StateBefore(t: Tables, c: CardId, now: Instant): (s: SrsRow)
    ensures c in t.srs ==> s == t.srs[c]
    ensures c !in t.srs ==> s == Bootstrap(now)
  {
    if c in t.srs then t.srs[c] else Bootstrap(now)
  }

  /** The audit event: the answer as given, elapsed time clamped at 0, and the
      due time, interval and ease before and after. */
  function EventOf(req: EventRequest, now: Instant, before: SrsRow, after: SrsRow): (e: EventRow)
    ensures e.sessionId == req.reviewId && e.cardId == req.cardId && e.answeredAt == now
    ensures e.result == req.result && e.elapsedMs >= 0 && (req.elapsedMs >= 0 ==> e.elapsedMs == req.elapsedMs)
    ensures e.prevDueAt == Some(before.dueAt) && e.newDueAt == Some(after.dueAt)
    ensures e.prevInterval == Some(before.intervalDays) && e.newInterval == Some(after.intervalDays)
    ensures e.prevEase == Some(before.ease) && e.newEase == Some(after.ease)
  {
    EventRow(req.reviewId, req.cardId, now, req.result, Max(0, req.elapsedMs),
             Some(before.dueAt), Some(after.dueAt), Some(before.intervalDays), Some(after.intervalDays),
             Some(before.ease), Some(after.ease))
  }

  /** One more answer on the session's counters, each an int that wraps
      past 2^31 - 1. */
  function Counted(s: SessionRow, isCorrect: bool): (r: SessionRow)
    ensures r.totalCards == IntValue(s.totalCards + 1)
    ensures isCorrect ==> r.correct == IntValue(s.correct + 1) && r.incorrect == s.incorrect
    ensures !isCorrect ==> r.incorrect == IntValue(s.incorrect + 1) && r.correct == s.correct
    ensures CountersAgree(s) ==> CountersAgree(r)
    ensures r.deckId == s.deckId && r.startedAt == s.startedAt && r.endedAt == s.endedAt && r.durationSec == s.durationSec
  {
    IntValueAdd(s.correct + s.incorrect, 1);
    if isCorrect then
      IntValueAdd(s.correct + 1, s.incorrect);
      s.(totalCards := IntValue(s.totalCards + 1), correct := IntValue(s.correct + 1))
    else
      IntValueAdd(s.incorrect + 1, s.correct);
      s.(totalCards := IntValue(s.totalCards + 1), incorrect := IntValue(s.incorrect + 1))
  }

  /** How one attempt ends: the event is stored, a concurrent commit made the
      read state stale, or an exception. */
  datatype Attempt = Committed(dto: EventDto) | Conflict | Failed(error: Error)

  /** One attempt at time now. `rival` is a state of the same card that
      another transaction commits between this attempt's read and its flush.
      The event is validated when it is persisted, before the flush; at the
      flush the state write succeeds only if the stored version is still the
      one read. */
  function RegisterEventOnce(t: Tables, req: EventRequest, now: Instant, rival: Option<SrsRow>): (r: (Attempt, Tables))
  {
    var pre := Precheck(t, req);
    if pre.Some? then (Failed(pre.value), t)
    else
      var c := req.cardId;
      var before := StateBefore(t, c, now);
      var after := Schedule(before, req.result == 1, now);
      var ev := EventOf(req, now, before, after);
      if !EventValid(ev) then (Failed(ConstraintViolation), t)
      else FlushPhase(t, req, StoredVersion(t, c), after, ev, rival)
  }

  /** The end of an attempt whose checks passed and whose event is valid,
      having read version `read` and computed the state `after`: the
      concurrent commit, if any, lands first; then the flush either finds the
      version it read and writes, or finds it stale and writes nothing. */
  function FlushPhase(t: Tables, req: EventRequest, read: Option<nat>, after: SrsRow, ev: EventRow,
                      rival: Option<SrsRow>): (r: (Attempt, Tables))
    requires req.reviewId.Some? ==> req.reviewId.value in t.sessions
    ensures !r.0.Failed?
    ensures r.0.Conflict? <==> rival.Some? || StoredVersion(t, req.cardId) != read
  {
    var c := req.cardId;
    var t1 := if rival.Some? then SrsWritten(t, c, read, rival.value) else t;
    assert rival.Some? ==> StoredVersion(t1, c) == Some(NextVersion(read));
    if StoredVersion(t1, c) != read then (Conflict, t1)
    else
      var counted := if req.reviewId.Some?
                     then Some((req.reviewId.value, Counted(t.sessions[req.reviewId.value], req.result == 1)))
                     else None;
      (Committed(EventDto(|t.events|, ev)), Flushed(t1, c, read, after, ev, counted))
  }

  /** The writes of a commit: the card's state, then the event, then the
      session's counters when there is a session. */
  function Flushed(t: Tables, c: CardId, read: Option<nat>, after: SrsRow, ev: EventRow,
                   counted: Option<(SessionId, SessionRow)>): Tables
  {
    var t2 := EventAppended(SrsWritten(t, c, read, after), ev);
    if counted.Some? then SessionWritten(t2, counted.value.0, counted.value.1) else t2
  }

  /** Retries see the same checks: the checks read neither the states nor the
      events. */
  lemma {:induction false} PrecheckIgnoresStates(t: Tables, req: EventRequest, srs: map<CardId, SrsRow>, events: seq<EventRow>)
    ensures Precheck(t.(srs := srs, events := events), req) == Precheck(t, req)
  {
  }

  /** A failed check aborts before anything is written, in the order card,
      session, session open, same deck; an answer other than 0 or 1 fails when
      the event is persisted and writes nothing either. */
  lemma {:induction false} FailuresChangeNothing(t: Tables, req: EventRequest, now: Instant, rival: Option<SrsRow>)
    ensures RegisterEventOnce(t, req, now, rival).0.Failed? ==> RegisterEventOnce(t, req, now, rival).1 == t
    ensures req.cardId !in t.cards ==> RegisterEventOnce(t, req, now, rival).0 == Failed(NoSuchElement)
    ensures req.cardId in t.cards && req.reviewId.Some? && req.reviewId.value !in t.sessions
            ==> RegisterEventOnce(t, req, now, rival).0 == Failed(NoSuchElement)
    ensures req.cardId in t.cards && req.reviewId.Some? && req.reviewId.value in t.sessions
            && !InProgress(t.sessions[req.reviewId.value])
            ==> RegisterEventOnce(t, req, now, rival).0 == Failed(IllegalState)
    ensures req.cardId in t.cards && req.reviewId.Some? && req.reviewId.value in t.sessions
            && InProgress(t.sessions[req.reviewId.value])
            && t.sessions[req.reviewId.value].deckId != t.cards[req.cardId].deckId
            ==> RegisterEventOnce(t, req, now, rival).0 == Failed(IllegalArgument)
    ensures Precheck(t, req).None? && !(0 <= req.result <= 1)
            ==> RegisterEventOnce(t, req, now, rival).0 == Failed(ConstraintViolation)
  {
    if Precheck(t, req).None? {
      var before := StateBefore(t, req.cardId, now);
      var after := Schedule(before, req.result == 1, now);
      if TablesValid(t) {
        assert RowValid(before);
      }
    }
  }

  /** For an answer that passes its checks, read from a valid stored state
      and met by a valid concurrent commit if any: the attempt commits when
      there is no concurrent commit, and otherwise conflicts and leaves the
      card's state valid and the checks still passing. */
  lemma {:induction false} AttemptAfterChecks(t: Tables, req: EventRequest, now: Instant, rival: Option<SrsRow>)
    ensures var (a, t1) := RegisterEventOnce(t, req, now, rival);
            && StoredStateValid(t, req.cardId) && (rival.Some? ==> RowValid(rival.value))
            && Precheck(t, req).None? && 0 <= req.result <= 1
            ==> && (rival.None? ==> a.Committed?)
                && (rival.Some? ==> a.Conflict? && StoredStateValid(t1, req.cardId) && Precheck(t1, req).None?)
  {
    var (a, t1) := RegisterEventOnce(t, req, now, rival);
    if StoredStateValid(t, req.cardId) && Precheck(t, req).None? && 0 <= req.result <= 1 {
      ConflictIffConcurrentCommit(t, req, now, rival);
      if rival.Some? {
        PrecheckIgnoresStates(t, req, t1.srs, t1.events);
        assert t1 == t.(srs := t1.srs, events := t1.events);
      }
    }
  }

  /** Any concurrent commit of the card's state between the read and the
      flush makes the attempt conflict, and the attempt then writes nothing of
      its own; without one, a valid answer always commits. */
  lemma {:induction false} ConflictIffConcurrentCommit(t: Tables, req: EventRequest, now: Instant, rival: Option<SrsRow>)
    requires StoredStateValid(t, req.cardId) && Precheck(t, req).None? && 0 <= req.result <= 1
    ensures RegisterEventOnce(t, req, now, rival).0.Conflict? <==> rival.Some?
    ensures rival.Some? ==> RegisterEventOnce(t, req, now, rival).1
                            == SrsWritten(t, req.cardId, StoredVersion(t, req.cardId), rival.value)
    ensures rival.None? ==> RegisterEventOnce(t, req, now, rival).0.Committed?
  {
    var c := req.cardId;
    var before := StateBefore(t, c, now);
    assert RowValid(before);
    var read := StoredVersion(t, c);
    if rival.Some? {
      var t1 := SrsWritten(t, c, read, rival.value);
      assert StoredVersion(t1, c) == Some(NextVersion(read));
    }
  }

  /** A committed answer: the card's state becomes the rule applied to the
      state the attempt read, one version later; exactly one event is appended,
      recording that state before and after; the session, if any, counts the
      answer once; nothing else changes. */
  lemma {:induction false} CommittedAnswer(t: Tables, req: EventRequest, now: Instant, rival: Option<SrsRow>)
    requires RegisterEventOnce(t, req, now, rival).0.Committed?
    ensures rival.None?
    ensures var (a, t3) := RegisterEventOnce(t, req, now, rival);
            var before := StateBefore(t, req.cardId, now);
            var after := Schedule(before, req.result == 1, now);
            && t3.srs == t.srs[req.cardId := after.(version := NextVersion(StoredVersion(t, req.cardId)))]
            && t3.events == t.events + [EventOf(req, now, before, after)]
            && a.dto.id == |t.events|
            && t3.cards == t.cards && t3.decks == t.decks && t3.nextId == t.nextId
            && (req.reviewId.None? ==> t3.sessions == t.sessions)
            && (req.reviewId.Some? ==>
                  t3.sessions == t.sessions[req.reviewId.value := Counted(t.sessions[req.reviewId.value], req.result == 1)])
  {
  }

  /** Every attempt keeps the store's invariants: states and events within
      their bounds, foreign keys, and agreeing session counters. */
  lemma {:induction false} AttemptKeepsTablesValid(t: Tables, req: EventRequest, now: Instant, rival: Option<SrsRow>)
    ensures TablesValid(t) && (rival.Some? ==> RowValid(rival.value)) ==> TablesValid(RegisterEventOnce(t, req, now, rival).1)
  {
    if TablesValid(t) && (rival.Some? ==> RowValid(rival.value)) && Precheck(t, req).None? {
      var c := req.cardId;
      var before := StateBefore(t, c, now);
      assert RowValid(before);
      var after := Schedule(before, req.result == 1, now);
      var ev := EventOf(req, now, before, after);
      var read := StoredVersion(t, c);
      var t1 := if rival.Some? then SrsWritten(t, c, read, rival.value) else t;
      if rival.Some? {
        SrsWrittenValid(t, c, read, rival.value);
      }
      if EventValid(ev) && StoredVersion(t1, c) == read {
        SrsWrittenValid(t1, c, read, after);
        EventAppendedValid(SrsWritten(t1, c, read, after), ev);
        if req.reviewId.Some? {
          var s := req.reviewId.value;
          SessionWrittenValid(EventAppended(SrsWritten(t1, c, read, after), ev), s, Counted(t.sessions[s], req.result == 1));
        }
      }
    }
  }

  // ---------------------------------------------------------------------
  // registerEvent: the retry loop
  // ---------------------------------------------------------------------

  /** The result, the tables and how many attempts were made. */
  datatype Outcome = Outcome(result: Result<EventDto>, tables: Tables, attempts: nat)

  /** The loop once k attempts have ended in a conflict, leaving the tables
      t: the third conflict is rethrown; otherwise attempt k is made. */
  function RetryFrom(t: Tables, req: EventRequest, clock: nat -> Instant, rivals: nat -> Option<SrsRow>, k: nat): Outcome
    requires k <= MAX_ATTEMPTS
    decreases MAX_ATTEMPTS - k, 1
  {
    if k == MAX_ATTEMPTS then Outcome(Err(OptimisticLock), t, k)
    else AttemptFrom(t, req, clock, rivals, k)
  }

  /** Attempt number k runs at clock(k) and meets the concurrent commit
      rivals(k). A conflict goes back to the loop; every other outcome ends
      it at once. */
  function AttemptFrom(t: Tables, req: EventRequest, clock: nat -> Instant, rivals: nat -> Option<SrsRow>, k: nat): Outcome
    requires k < MAX_ATTEMPTS
    decreases MAX_ATTEMPTS - k, 0
  {
    var (a, t1) := RegisterEventOnce(t, req, clock(k), rivals(k));
    match a
    case Committed(dto) => Outcome(Ok(dto), t1, k + 1)
    case Failed(e) => Outcome(Err(e), t1, k + 1)
    case Conflict => RetryFrom(t1, req, clock, rivals, k + 1)
  }

  /** registerEvent: the loop from its first attempt. */
  function RegisterEvent(t: Tables, req: EventRequest, clock: nat -> Instant, rivals: nat -> Option<SrsRow>): (o: Outcome)
    ensures 1 <= o.attempts <= MAX_ATTEMPTS
  {
    RetryAttempts(t, req, clock, rivals, 0);
    RetryFrom(t, req, clock, rivals, 0)
  }

  /** One turn of the retry loop: attempt k ended with a and left the
      tables t1. */
  lemma {:induction false} RetryStep(t: Tables, req: EventRequest, clock: nat -> Instant, rivals: nat -> Option<SrsRow>, k: nat,
                  a: Attempt, t1: Tables)
    requires k < MAX_ATTEMPTS && (a, t1) == RegisterEventOnce(t, req, clock(k), rivals(k))
    ensures a.Committed? ==> RetryFrom(t, req, clock, rivals, k) == Outcome(Ok(a.dto), t1, k + 1)
    ensures a.Failed? ==> RetryFrom(t, req, clock, rivals, k) == Outcome(Err(a.error), t1, k + 1)
    ensures a.Conflict? ==> RetryFrom(t, req, clock, rivals, k) == RetryFrom(t1, req, clock, rivals, k + 1)
  {
    assert RetryFrom(t, req, clock, rivals, k) == AttemptFrom(t, req, clock, rivals, k);
  }

  /** From attempt k on, the loop ends after at most three attempts in all,
      making at least one more when one is left, and the optimistic-lock
      error comes only after the third. */
  lemma {:induction false} RetryAttempts(t: Tables, req: EventRequest, clock: nat -> Instant, rivals: nat -> Option<SrsRow>, k: nat)
    requires k <= MAX_ATTEMPTS
    ensures var o := RetryFrom(t, req, clock, rivals, k);
            && k <= o.attempts <= MAX_ATTEMPTS && (k < MAX_ATTEMPTS ==> k < o.attempts)
            && (o.result == Err(OptimisticLock) ==> o.attempts == MAX_ATTEMPTS)
    decreases MAX_ATTEMPTS - k
  {
    if k < MAX_ATTEMPTS {
      var (a, t1) := RegisterEventOnce(t, req, clock(k), rivals(k));
      FailuresChangeNothing(t, req, clock(k), rivals(k));
      RetryStep(t, req, clock, rivals, k, a, t1);
      if a.Conflict? {
        RetryAttempts(t1, req, clock, rivals, k + 1);
      }
    }
  }

  /** The retries keep the tables valid when every concurrent commit does. */
  lemma {:induction false} RetryKeepsTablesValid(t: Tables, req: EventRequest, clock: nat -> Instant, rivals: nat -> Option<SrsRow>, k: nat)
    requires k <= MAX_ATTEMPTS && TablesValid(t) && RivalsValid(rivals)
    ensures TablesValid(RetryFrom(t, req, clock, rivals, k).tables)
    decreases MAX_ATTEMPTS - k
  {
    if k < MAX_ATTEMPTS {
      var (a, t1) := RegisterEventOnce(t, req, clock(k), rivals(k));
      AttemptKeepsTablesValid(t, req, clock(k), rivals(k));
      RetryStep(t, req, clock, rivals, k, a, t1);
      if a.Conflict? {
        RetryKeepsTablesValid(t1, req, clock, rivals, k + 1);
      }
    }
  }

  /** For an answer that passes its checks, the retries from attempt k end
      with the optimistic-lock error when every remaining attempt meets a
      concurrent commit, and store the answer otherwise. */
  lemma {:induction false} RetryEndsInLockOrCommit(t: Tables, req: EventRequest, clock: nat -> Instant,
                                                   rivals: nat -> Option<SrsRow>, k: nat)
    requires k <= MAX_ATTEMPTS && StoredStateValid(t, req.cardId) && RivalsValid(rivals)
    requires Precheck(t, req).None? && 0 <= req.result <= 1
    ensures var o := RetryFrom(t, req, clock, rivals, k);
            if AllBeaten(rivals, k) then o.result == Err(OptimisticLock) else o.result.Ok?
    decreases MAX_ATTEMPTS - k
  {
    if k < MAX_ATTEMPTS {
      var (a, t1) := RegisterEventOnce(t, req, clock(k), rivals(k));
      AttemptAfterChecks(t, req, clock(k), rivals(k));
      RetryStep(t, req, clock, rivals, k, a, t1);
      if rivals(k).Some? {
        RetryEndsInLockOrCommit(t1, req, clock, rivals, k + 1);
      }
    }
  }

  /** The stored state of the card, if any, is within its bounds. */
  predicate StoredStateValid(t: Tables, c: CardId) {
    c in t.srs ==> RowValid(t.srs[c])
  }

  /** Concurrent commits by other transactions store valid states only. */
  predicate RivalsValid(rivals: nat -> Option<SrsRow>) {
    forall k: nat :: k < MAX_ATTEMPTS && rivals(k).Some? ==> RowValid(rivals(k).value)
  }

  /** A failed check or an invalid answer is not retried: one attempt, the
      error, and the tables unchanged. */
  lemma {:induction false} ErrorsAreNotRetried(t: Tables, req: EventRequest, clock: nat -> Instant, rivals: nat -> Option<SrsRow>)
    requires Precheck(t, req).Some? || !(0 <= req.result <= 1)
    ensures var o := RegisterEvent(t, req, clock, rivals);
            && o.attempts == 1 && o.tables == t && o.result.Err?
            && (Precheck(t, req).Some? ==> o.result.error == Precheck(t, req).value)
            && (Precheck(t, req).None? ==> o.result.error == ConstraintViolation)
  {
    FailuresChangeNothing(t, req, clock(0), rivals(0));
  }

  /** Every attempt from the k-th on meets a concurrent commit. */
  predicate AllBeaten(rivals: nat -> Option<SrsRow>, k: nat)
    decreases MAX_ATTEMPTS - k
  {
    k >= MAX_ATTEMPTS || (rivals(k).Some? && AllBeaten(rivals, k + 1))
  }

  lemma {:induction false} AllBeatenMeans(rivals: nat -> Option<SrsRow>, k: nat)
    ensures AllBeaten(rivals, k) <==> forall j: nat :: k <= j < MAX_ATTEMPTS ==> rivals(j).Some?
    decreases MAX_ATTEMPTS - k
  {
    if k < MAX_ATTEMPTS {
      AllBeatenMeans(rivals, k + 1);
      if rivals(k).Some? && AllBeaten(rivals, k + 1) {
        forall j: nat | k <= j < MAX_ATTEMPTS
          ensures rivals(j).Some?
        {
          if j > k {
            assert k + 1 <= j;
          }
        }
      }
    }
  }

  /** registerEvent, for an answer that passes its checks, fails with an
      optimistic-lock error exactly when a concurrent commit beats each of
      the three attempts; otherwise the answer is stored. */
  lemma {:induction false} OptimisticLockIffThreeConflicts(t: Tables, req: EventRequest, clock: nat -> Instant, rivals: nat -> Option<SrsRow>)
    requires StoredStateValid(t, req.cardId) && RivalsValid(rivals)
    requires Precheck(t, req).None? && 0 <= req.result <= 1
    ensures var r := RegisterEvent(t, req, clock, rivals).result;
            && (r == Err(OptimisticLock) <==> forall j: nat :: j < MAX_ATTEMPTS ==> rivals(j).Some?)
            && (r != Err(OptimisticLock) ==> r.Ok?)
  {
    RetryEndsInLockOrCommit(t, req, clock, rivals, 0);
    AllBeatenMeans(rivals, 0);
  }

  /** No lost update: when another transaction commits an answer to the same
      card first, the retried attempt applies its own answer on top of the
      other one, so both count and the version moves twice. */
  lemma {:induction false} BothAnswersCount(t: Tables, req: EventRequest, clock: nat -> Instant, rivals: nat -> Option<SrsRow>,
                                            otherCorrect: bool)
    requires StoredStateValid(t, req.cardId) && Precheck(t, req).None? && 0 <= req.result <= 1
    requires req.cardId in t.srs
    requires rivals(0) == Some(Schedule(t.srs[req.cardId], otherCorrect, clock(0)))
    requires rivals(1).None?
    ensures var o := RegisterEvent(t, req, clock, rivals);
            var other := Schedule(t.srs[req.cardId], otherCorrect, clock(0));
            var mine := Schedule(other, req.result == 1, clock(1));
            && o.result.Ok? && o.attempts == 2
            && o.tables.srs[req.cardId] == mine.(version := t.srs[req.cardId].version + 2)
  {
    var c := req.cardId;
    var other := Schedule(t.srs[c], otherCorrect, clock(0));
    ConflictIffConcurrentCommit(t, req, clock(0), rivals(0));
    var t1 := RegisterEventOnce(t, req, clock(0), rivals(0)).1;
    assert t1 == SrsWritten(t, c, Some(t.srs[c].version), other);
    assert t1.srs[c] == other.(version := t.srs[c].version + 1);
    PrecheckIgnoresStates(t, req, t1.srs, t1.events);
    assert t1 == t.(srs := t1.srs, events := t1.events);
    ConflictIffConcurrentCommit(t1, req, clock(1), rivals(1));
    CommittedAnswer(t1, req, clock(1), rivals(1));
    assert StateBefore(t1, c, clock(1)) == other.(version := t.srs[c].version + 1);
  }

  // ---------------------------------------------------------------------
  // registerEvent as the source runs it
  // ---------------------------------------------------------------------

  /** registerEvent is @Transactional and calls registerEventOnce on itself,
      so the loop and all its attempts share one transaction, and nothing
      flushes before that transaction commits, after the loop has returned.
      The version check therefore runs outside the catch: a conflict reaches
      the caller as an optimistic-lock failure after a single attempt, the
      rollback discards this attempt's writes, and the other transaction's
      commit stays. Without a concurrent commit this is the loop's outcome. */
  function RegisterEventInOneTransaction(t: Tables, req: EventRequest, clock: nat -> Instant,
                                         rivals: nat -> Option<SrsRow>): (o: Outcome)
    ensures o.attempts == 1
    ensures rivals(0).None? ==> o == RegisterEvent(t, req, clock, rivals)
  {
    var (a, t1) := RegisterEventOnce(t, req, clock(0), rivals(0));
    RetryStep(t, req, clock, rivals, 0, a, t1);
    match a
    case Committed(dto) => Outcome(Ok(dto), t1, 1)
    case Failed(e) => Outcome(Err(e), t1, 1)
    case Conflict => Outcome(Err(OptimisticLock), t1, 1)
  }

  /** The retry is never reached. In the race of BothAnswersCount, where the
      loop's second attempt stores this answer on top of the other one, the
      single transaction fails: only the other answer is stored, and no event
      is appended. */
  lemma {:induction false} SingleTransactionLosesAnswer(t: Tables, req: EventRequest, clock: nat -> Instant,
                                                        rivals: nat -> Option<SrsRow>, otherCorrect: bool)
    requires StoredStateValid(t, req.cardId) && Precheck(t, req).None? && 0 <= req.result <= 1
    requires req.cardId in t.srs
    requires rivals(0) == Some(Schedule(t.srs[req.cardId], otherCorrect, clock(0)))
    requires rivals(1).None?
    ensures var o := RegisterEventInOneTransaction(t, req, clock, rivals);
            var other := Schedule(t.srs[req.cardId], otherCorrect, clock(0));
            && o.result == Err(OptimisticLock)
            && o.tables.srs[req.cardId] == other.(version := t.srs[req.cardId].version + 1)
            && o.tables.events == t.events
    ensures RegisterEvent(t, req, clock, rivals).result.Ok?
  {
  }
}
