/** The current review service: sessions, and the answer of a card with its
    scheduling update, audit event and session counters. Each method works as
    the service does, on entities loaded from the store and changed field by
    field, and is proved to do what the matching function of ReviewSpec says. */
module Reviews {

  import opened Common
  import opened SrsStates
  import opened SrsRule
  import opened Sessions
  import opened Events
  import opened Store
  import opened ReviewSpec

  class ReviewService {
    const db: Database

    constructor(db: Database)
      ensures this.db == db
    {
      this.db := db;
    }

    /** createSession: the session takes the requested start time, or now
        when it is persisted. */
    method CreateSession(deckId: DeckId, startedAt: Option<Instant>, now: Instant) returns (r: Result<SessionDto>)
      requires db.Valid()
      modifies db
      ensures db.Valid()
      ensures (r, db.State()) == ReviewSpec.CreateSession(old(db.State()), deckId, startedAt, now)
    {
      if deckId !in db.decks {
        return Err(NoSuchElement);
      }
      var s := new ReviewSession();
      s.deckId := Some(deckId);
      if startedAt.Some? {
        s.startedAt := startedAt;
      }
      s.PrePersist(now);
      var id := db.InsertSession(s.Row());
      s.id := Some(id);
      r := Ok(ToSessionDto(id, s.Row()));
    }

    /** finishSession: the setters run before the counter check, but a failed
        check rolls the transaction back, so nothing is written. */
    method FinishSession(id: SessionId, req: FinishRequest, now: Instant) returns (r: Result<SessionDto>)
      requires db.Valid()
      modifies db
      ensures db.Valid()
      ensures (r, db.State()) == ReviewSpec.FinishSession(old(db.State()), id, req, now)
    {
      if id !in db.sessions {
        return Err(NoSuchElement);
      }
      var s := new ReviewSession.Load(id, db.sessions[id]);
      if s.endedAt.Some? {
        return Err(IllegalState);
      }
      var ended := if req.endedAt.Some? then req.endedAt.value else now;
      s.endedAt := Some(ended);
      s.totalCards := req.totalCards;
      s.correct := req.correct;
      s.incorrect := req.incorrect;
      s.durationSec := req.durationSec;
      if req.totalCards != IntValue(req.correct + req.incorrect) {
        return Err(IllegalArgument);
      }
      db.WriteSession(id, s.Row());
      r := Ok(ToSessionDto(id, s.Row()));
    }

    /** Steps 1 and 2 of an attempt: the card must exist, and the session,
        when one is given, must exist, be in progress and be of the card's
        deck. On success the session is loaded as an entity. */
    method Lookup(req: EventRequest) returns (pre: Option<Error>, session: ReviewSession?)
      requires db.Valid()
      ensures pre == Precheck(db.State(), req)
      ensures pre.None? ==> (session == null <==> req.reviewId.None?)
      ensures pre.None? && session != null ==>
                fresh(session) && session.Persistable() && session.Row() == db.sessions[req.reviewId.value]
    {
      if req.cardId !in db.cards {
        return Some(NoSuchElement), null;
      }
      var card := db.cards[req.cardId];
      session := null;
      if req.reviewId.Some? {
        if req.reviewId.value !in db.sessions {
          return Some(NoSuchElement), null;
        }
        session := new ReviewSession.Load(req.reviewId.value, db.sessions[req.reviewId.value]);
        if session.endedAt.Some? {
          return Some(IllegalState), null;
        }
        if session.deckId != Some(card.deckId) {
          return Some(IllegalArgument), null;
        }
      }
      pre := None;
    }

    /** Step 3: the stored state of the card as an entity, or a new one due
        now, with the version the attempt read. */
    method LoadState(c: CardId, now: Instant) returns (srs: CardSrsState, read: Option<nat>)
      requires db.Valid()
      ensures fresh(srs) && srs.Persistable()
      ensures srs.Row() == StateBefore(db.State(), c, now)
      ensures read == StoredVersion(db.State(), c)
    {
      if c in db.srs {
        srs := new CardSrsState.Load(c, db.srs[c]);
        read := Some(srs.version);
      } else {
        srs := new CardSrsState();
        srs.cardId := Some(c);
        srs.dueAt := Some(now);
        srs.intervalDays := 0;
        srs.easeFactor := EASE_DEFAULT;
        srs.repetitions := 0;
        srs.lastResult := 0;
        srs.updatedAt := Some(now);
        read := None;
      }
    }

    /** registerEventOnce at time now, with `rival` committed by another
        transaction just before this one flushes. */
    method RegisterEventOnce(req: EventRequest, now: Instant, rival: Option<SrsRow>) returns (a: Attempt)
      requires db.Valid()
      requires rival.Some? ==> RowValid(rival.value)
      modifies db
      ensures db.Valid()
      ensures (a, db.State()) == ReviewSpec.RegisterEventOnce(old(db.State()), req, now, rival)
    {
      ghost var t := db.State();
      // 1) card, 2) session and the domain checks
      var pre, session := Lookup(req);
      if pre.Some? {
        return Failed(pre.value);
      }
      // 3) the state, and the snapshots before the rule
      var srs, read := LoadState(req.cardId, now);
      ghost var before := srs.Row();
      assert RowValid(before);
      var prevDue := srs.dueAt;
      var prevInt := srs.intervalDays;
      var prevEase := srs.easeFactor;
      // 4) the rule
      var isCorrect := req.result == 1;
      ApplyRule(srs, isCorrect, now);
      ghost var after := srs.Row();
      assert RowValid(after);
      // 5) the event
      var ev := NewEvent(req, now, prevDue, prevInt, prevEase, srs, before);
      // 6) persisting the event validates it
      if !EventValid(ev.Row()) {
        return Failed(ConstraintViolation);
      }
      a := FinishAttempt(req, now, rival, read, srs, ev, session);
    }

    /** Steps 7 and the flush, once the event is valid: the session counters
        in memory, the concurrent commit if any, then the flush, which
        conflicts when the version read is stale. */
    method FinishAttempt(req: EventRequest, now: Instant, rival: Option<SrsRow>, read: Option<nat>,
                         srs: CardSrsState, ev: ReviewEvent, session: ReviewSession?)
      returns (a: Attempt)
      requires db.Valid() && (rival.Some? ==> RowValid(rival.value))
      requires Precheck(db.State(), req).None? && read == StoredVersion(db.State(), req.cardId)
      requires srs.Persistable() && RowValid(srs.Row()) && srs.updatedAt == Some(now)
      requires ev.Persistable() && EventValid(ev.Row()) && ev.Row().cardId == req.cardId
      requires ev.Row().sessionId == req.reviewId && ev.Row().result == req.result
      requires session == null <==> req.reviewId.None?
      requires session != null ==> session.Persistable() && session.Row() == db.sessions[req.reviewId.value]
      modifies db, srs, session
      ensures db.Valid()
      ensures (a, db.State()) == FlushPhase(old(db.State()), req, read, old(srs.Row()), ev.Row(), rival)
    {
      // 7) session counters, in memory until the flush
      if session != null {
        CountAnswer(session, req.result == 1);
      }
      // another transaction commits the same card's state first
      if rival.Some? {
        var _ := db.SaveSrs(req.cardId, StoredVersion(db.State(), req.cardId), rival.value);
      }
      // the flush
      var key := Flush(req.cardId, read, srs, ev, req.reviewId, session, now);
      if key.None? {
        return Conflict;
      }
      a := Committed(EventDto(key.value, ev.Row()));
    }

    /** The flush at commit: the card's state under optimistic locking (an
        update refreshes its update time, an insert keeps it), then the
        event, then the session. A stale read writes nothing and gives no
        key. */
    method Flush(c: CardId, read: Option<nat>, srs: CardSrsState, ev: ReviewEvent,
                 sid: Option<SessionId>, session: ReviewSession?, now: Instant)
      returns (key: Option<nat>)
      requires db.Valid() && c in db.cards
      requires srs.Persistable() && RowValid(srs.Row()) && srs.updatedAt == Some(now)
      requires ev.Persistable() && EventValid(ev.Row()) && ev.Row().cardId == c && ev.Row().sessionId == sid
      requires sid.Some? <==> session != null
      requires session != null ==> && sid.value in db.sessions && session.Persistable()
                                   && session.Row().deckId in db.decks && CountersAgree(session.Row())
      modifies db, srs
      ensures db.Valid()
      ensures key.None? <==> read != StoredVersion(old(db.State()), c)
      ensures key.None? ==> db.State() == old(db.State())
      ensures key.Some? ==>
                && key.value == |old(db.events)|
                && db.State() == Flushed(old(db.State()), c, read, old(srs.Row()), ev.Row(),
                                         if sid.Some? then Some((sid.value, session.Row())) else None)
    {
      if read.Some? {
        srs.PreUpdate(now);
      } else {
        srs.PrePersist(now);
      }
      var ok := db.SaveSrs(c, read, srs.Row());
      if !ok {
        return None;
      }
      var k := db.AppendEvent(ev.Row());
      if session != null {
        db.WriteSession(sid.value, session.Row());
      }
      key := Some(k);
    }

    /** registerEvent: at most three attempts, the k-th at clock(k) against
        the concurrent commit rivals(k); only a conflict is retried, and the
        third one is rethrown. */
    method RegisterEvent(req: EventRequest, clock: nat -> Instant, rivals: nat -> Option<SrsRow>)
      returns (r: Result<EventDto>)
      requires db.Valid() && RivalsValid(rivals)
      modifies db
      ensures db.Valid()
      ensures r == ReviewSpec.RegisterEvent(old(db.State()), req, clock, rivals).result
      ensures db.State() == ReviewSpec.RegisterEvent(old(db.State()), req, clock, rivals).tables
    {
      ghost var goal := ReviewSpec.RegisterEvent(db.State(), req, clock, rivals);
      var attempts: nat := 0;
      while true
        invariant attempts < MAX_ATTEMPTS
        invariant db.Valid()
        invariant RetryFrom(db.State(), req, clock, rivals, attempts) == goal
        decreases MAX_ATTEMPTS - attempts
      {
        var done := Turn(req, clock, rivals, attempts, goal);
        if done.Some? {
          return done.value;
        }
        var next := attempts + 1;
        assert next < MAX_ATTEMPTS && RetryFrom(db.State(), req, clock, rivals, next) == goal;
        attempts := next;
      }
    }

    /** One pass of the loop: attempt k, and the loop's verdict on it — the
        result when the loop ends here, or nothing when it retries. */
    method Turn(req: EventRequest, clock: nat -> Instant, rivals: nat -> Option<SrsRow>, k: nat, ghost goal: Outcome)
      returns (done: Option<Result<EventDto>>)
      requires db.Valid() && RivalsValid(rivals) && k < MAX_ATTEMPTS
      requires RetryFrom(db.State(), req, clock, rivals, k) == goal
      modifies db
      ensures db.Valid()
      ensures done.Some? ==> done.value == goal.result && db.State() == goal.tables
      ensures done.None? ==> k + 1 < MAX_ATTEMPTS && RetryFrom(db.State(), req, clock, rivals, k + 1) == goal
    {
      ghost var t := db.State();
      var a := RegisterEventOnce(req, clock(k), rivals(k));
      RetryStep(t, req, clock, rivals, k, a, db.State());
      match a {
        case Committed(dto) =>
          done := Some(Ok(dto));
        case Failed(e) =>
          done := Some(Err(e));
        case Conflict =>
          if k + 1 >= MAX_ATTEMPTS {
            assert RetryFrom(db.State(), req, clock, rivals, k + 1).result == Err(OptimisticLock);
            done := Some(Err(OptimisticLock));
          } else {
            done := None;
          }
      }
    }
  }

  /** Step 4 on the entity: the rule, then the new due time and the update
      time. */
  method ApplyRule(srs: CardSrsState, isCorrect: bool, now: Instant)
    requires srs.Persistable()
    modifies srs
    ensures srs.Persistable() && srs.cardId == old(srs.cardId)
    ensures srs.Row() == Schedule(old(srs.Row()), isCorrect, now)
  {
    var prevEase := srs.easeFactor;
    if isCorrect {
      srs.repetitions := srs.repetitions + 1;
      var newInterval: int;
      if srs.repetitions == 1 {
        newInterval := 1;
      } else if srs.repetitions == 2 {
        newInterval := 3;
      } else {
        newInterval := Max(1, IntValue(RoundHalfUp(srs.intervalDays * srs.easeFactor)));
      }
      srs.intervalDays := newInterval;
      srs.easeFactor := MinBD(prevEase + EASE_STEP_UP, EASE_MAX);
      srs.lastResult := 1;
    } else {
      srs.repetitions := 0;
      srs.intervalDays := 1;
      srs.easeFactor := MaxBD(prevEase - EASE_STEP_DOWN, EASE_MIN);
      srs.lastResult := 0;
    }
    srs.dueAt := Some(PlusDays(now, srs.intervalDays));
    srs.updatedAt := Some(now);
  }

  /** Step 5: the event, from the request, the snapshots taken before the
      rule and the state after it. */
  method NewEvent(req: EventRequest, now: Instant, prevDue: Option<Instant>, prevInt: int, prevEase: int,
                  srs: CardSrsState, ghost before: SrsRow)
    returns (ev: ReviewEvent)
    requires srs.Persistable()
    requires prevDue == Some(before.dueAt) && prevInt == before.intervalDays && prevEase == before.ease
    ensures fresh(ev) && ev.Persistable()
    ensures ev.Row() == EventOf(req, now, before, srs.Row())
  {
    ghost var e := EventOf(req, now, before, srs.Row());
    var newDue, newInt, newEase := srs.dueAt, srs.intervalDays, srs.easeFactor;
    assert e == EventRow(req.reviewId, req.cardId, now, req.result, Max(0, req.elapsedMs),
                         prevDue, newDue, Some(prevInt), Some(newInt), Some(prevEase), Some(newEase));
    ev := new ReviewEvent();
    ev.sessionId := req.reviewId;
    ev.cardId := Some(req.cardId);
    ev.answeredAt := Some(now);
    ev.result := req.result;
    ev.elapsedMs := Max(0, req.elapsedMs);
    ev.prevDueAt := prevDue;
    ev.newDueAt := newDue;
    ev.prevInterval := Some(prevInt);
    ev.newInterval := Some(newInt);
    ev.prevEase := Some(prevEase);
    ev.newEase := Some(newEase);
    assert ev.cardId == Some(req.cardId) && ev.answeredAt == Some(now);
    assert ev.Row() == e;
    ev.PrePersist(now);
  }

  /** Step 7 on the entity: one more answer on the counters. */
  method CountAnswer(session: ReviewSession, isCorrect: bool)
    requires session.Persistable()
    modifies session
    ensures session.Persistable()
    ensures session.Row() == Counted(old(session.Row()), isCorrect)
  {
    session.totalCards := IntValue(session.totalCards + 1);
    if isCorrect {
      session.correct := IntValue(session.correct + 1);
    } else {
      session.incorrect := IntValue(session.incorrect + 1);
    }
  }
}
