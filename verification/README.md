# Flashcard backend scheduling, modelled in Dafny

This project models the logic of a Java flashcard backend. The backend holds
three generations of a spaced-repetition scheduler, each over a small per-card
record:

- **Current review engine.** Package `dev.cristianinbits.flashcards.review`.
  - A pass/fail answer updates the card's scheduling state: repetitions, the
    interval in days, an ease factor clamped to [1.30, 3.00], and the due
    time.
  - It appends an audit event holding snapshots of that state before and
    after the answer.
  - It counts the answer in the review session, if one was given.
  - A loop is written to retry the whole attempt up to three times on an
    optimistic-lock conflict. The attempts share one transaction, so as the
    code stands a conflict surfaces at commit and is not retried (see
    "Findings"). The model's loop treats each attempt as flushing on its
    own.
  - Sessions move once from open to finished.
  - The due listing returns a deck's due cards, earliest first.
- **Graded scheduler.** Package `com.csindila.flashcards.review`. It is an
  SM-2 variant driven by grades 0 to 5. It keeps a lapse counter, logs every
  answer and can postpone a card.
- **Level ladder.** Package `com.CristianInBits.flashcards`. Each card has a
  level that indexes the interval table [0, 1, 3, 7, 30].
- **Supporting logic.**
  - The paging parameters of the list endpoints: defaults, sort parsing and
    the allow-list.
  - The card service's text normalisation and the initial scheduling state a
    new card gets.
  - The statistics service's dense per-day windows.

## Modelling conventions

- **Time.** An instant is an integer number of seconds in UTC.
  - `plusDays(n)` adds `n * 86400` and `plusMinutes(m)` adds `m * 60`.
  - A calendar date is the day number `t / 86400`.
- **Ease.** Ease factors are integers in hundredths, so 2.50 is 250.
  - In the current engine, `BigDecimal` arithmetic at scale 2 is then exact.
    Rounding `interval x ease` half-up to scale 0 becomes a sign-aware
    rounding of hundredths (`SrsRule.RoundHalfUp`).
  - In the graded scheduler every step is a whole number of hundredths.
    `Math.round` is modelled as `floor(x + 0.5)` (`LegacyReviews.MathRound`).
- **Java's `int`.** `Common.IntValue` is the two's-complement narrowing of
  an exact result to 32 bits. The model applies it wherever Java `int`
  arithmetic can wrap: the session counters and the finish check, the
  graded scheduler's repetition and lapse counts, and the level ladder.
- **Stores.** The current engine's repositories are one `Database` object
  (`Store.Database`).
  - Its fields hold the tables: decks, cards, scheduling states, sessions and
    events.
  - `@Version` is an explicit version number. A save compares it with the
    version read and increments it (`Database.SaveSrs`).
- **Services and entities.** Each service operation is a method on a class
  that owns the database. It is proved equal to a function from the tables
  before the call to the reply and the tables after it (`ReviewSpec`,
  `Cards`). So a table row for a method such as `Cards.CardService.Update`
  and the row for its function (`Cards.UpdateCard`) cite the same lines:
  the method is the implementation, and its `ensures` states that it
  computes the function, about which the properties are proved. The JPA
  entities are classes whose fields the service methods set
  one by one, as the Java does; their `@PrePersist`/`@PreUpdate` hooks are
  methods.
- **Inputs.** The clock is a parameter.
  - A concurrent transaction that commits the same card's state between an
    attempt's read and its flush is also a parameter: `rival`, or
    `rivals(k)` for the k-th attempt.
  - SQL aggregates are parameters as well.
- **Errors.** Exceptions are the `Err` values of `Result`, one constructor per
  exception class.

Some behaviours of the code are easy to miss:

- `ReviewSession` declares no `@Version` field (`ReviewSession.java`, lines
  56-95). Session counters are therefore written without a version check;
  only the card's scheduling state is version-checked.
- `PageQuery.sortOrDefault` returns a non-blank sort text untrimmed. A
  leading blank therefore makes the property lookup fail
  (`PageQueries.LeadingSpaceIsRejected`).
- The graded scheduler's rule puts no upper cap on the ease
  (`LegacyReviews.EaseHasNoCap`). The `ease` column is `numeric(4,2)`, so
  the answer that would raise it to 100.00 fails when the transaction
  commits (`LegacyReviews.EaseOutgrowsColumn`).
- `finishSession` compares the total with `correct + incorrect` in `int`
  arithmetic. With the request's `@Min(0)` bounds the sum cannot wrap onto
  a valid total (`ReviewSpec.ValidatedCountersCheckExactSum`); without them
  it can (`ReviewSpec.UnvalidatedCountersWrap`).

Source cells in the table are paths relative to the repository root.

## Model

| member | source | states |
|---|---|---|
| Common.DayOf | backend/src/main/java/com/csindila/flashcards/stats/service/StatsService.java:77 | the UTC calendar date of an instant: the day whose 86400 seconds contain it |
| Common.DayOfPlusDays | backend/src/main/java/com/csindila/flashcards/stats/service/StatsService.java:78 | moving n days moves the calendar date by exactly n |
| Common.PlusDays | backend/src/main/java/dev/cristianinbits/flashcards/review/service/ReviewService.java:324 | plusDays at offset UTC: n whole days of 86400 seconds later; Common.DayOfPlusDays states that the calendar date moves by exactly n |
| Common.PlusMinutes | backend/src/main/java/com/csindila/flashcards/review/service/ReviewService.java:178 | plusMinutes: m minutes of 60 seconds later; LegacyReviews.GradedReviewService.Skip states the due time it gives |
| Common.StartOfDay | backend/src/main/java/com/csindila/flashcards/stats/service/StatsService.java:27 | atStartOfDay at offset UTC: an instant of the given day, and no instant of that day is earlier |
| SrsRule.RoundHalfUp | backend/src/main/java/dev/cristianinbits/flashcards/review/service/ReviewService.java:307-310 | setScale(0, HALF_UP) of a value in hundredths: the nearest integer, ties away from zero |
| Common.IntValue | backend/src/main/java/dev/cristianinbits/flashcards/review/service/ReviewService.java:310 | BigDecimal.intValue / int arithmetic: the int congruent to x modulo 2^32, equal to x when x fits |
| Common.IntValueCongruent | backend/src/main/java/dev/cristianinbits/flashcards/review/service/ReviewService.java:348-352 | results congruent modulo 2^32 wrap to the same int |
| Common.IntValueAdd | backend/src/main/java/dev/cristianinbits/flashcards/review/service/ReviewService.java:348-352 | wrapping after every addition is wrapping once at the end |
| SrsRule.MinBD | backend/src/main/java/dev/cristianinbits/flashcards/review/service/ReviewService.java:368-370 | minBD is the smaller argument and one of the two |
| SrsRule.MaxBD | backend/src/main/java/dev/cristianinbits/flashcards/review/service/ReviewService.java:373-375 | maxBD is the larger argument and one of the two |
| SrsRule.Bootstrap | backend/src/main/java/dev/cristianinbits/flashcards/review/service/ReviewService.java:279-290 | a missing state starts due now, interval 0, ease 2.50, 0 repetitions, last result 0, and is within the entity's bounds |
| SrsRule.NextInterval | backend/src/main/java/dev/cristianinbits/flashcards/review/service/ReviewService.java:301-311 | the interval of a correct answer is at least 1 day: 1 for the first repetition, 3 for the second |
| SrsRule.Schedule | backend/src/main/java/dev/cristianinbits/flashcards/review/service/ReviewService.java:297-326 | after any answer the interval is at least 1 and the card is due that many days after now; a correct answer adds a repetition, a wrong one resets repetitions to 0 and the interval to 1; valid states stay valid |
| SrsRule.EaseStep | backend/src/main/java/dev/cristianinbits/flashcards/review/service/ReviewService.java:313-320 | a correct answer raises the ease by 0.05 up to 3.00, a wrong one lowers it by 0.15 down to 1.30 |
| SrsRule.IntervalNeverShrinks | backend/src/main/java/dev/cristianinbits/flashcards/review/service/ReviewService.java:306-311 | from the third repetition on, a correct answer never shortens the interval, since the ease is at least 1.30; stated for intervals up to INT_MAX / 3, see "## Left out" |
| SrsRule.Replay | backend/src/main/java/dev/cristianinbits/flashcards/review/service/ReviewService.java:297-326 | the state after a run of answers, each scheduled by SrsRule.Schedule from the previous state; SrsRule.ReplayKeepsValid, RepeatedLapses, RepeatedSuccesses and FirstThreeSuccesses state what runs of answers do |
| SrsRule.ReplayKeepsValid | backend/src/main/java/dev/cristianinbits/flashcards/review/domain/CardSrsState.java:93-128 | any run of answers keeps the state within the entity's bounds, with an interval of at least 1 |
| SrsRule.RepeatedLapses | backend/src/main/java/dev/cristianinbits/flashcards/review/service/ReviewService.java:316-322 | k wrong answers lower the ease by 0.15 each, stopping at 1.30 |
| SrsRule.RepeatedSuccesses | backend/src/main/java/dev/cristianinbits/flashcards/review/service/ReviewService.java:299-315 | k correct answers raise the ease by 0.05 each, stopping at 3.00 |
| SrsRule.LapseRestartsLadder | backend/src/main/java/dev/cristianinbits/flashcards/review/service/ReviewService.java:299-322 | after a wrong answer the next correct answer is the first repetition again, with a 1-day interval |
| SrsRule.FirstThreeSuccesses | backend/src/main/java/dev/cristianinbits/flashcards/review/service/ReviewService.java:279-315 | a new card answered correctly three times gets intervals 1, 3 and round(3 x 2.60) = 8 days |
| SrsStates.CardSrsState.Row | backend/src/main/java/dev/cristianinbits/flashcards/review/domain/CardSrsState.java:85-128 | the stored row holds the entity's fields, and is within bounds exactly when the entity's constraints hold |
| SrsStates.CardSrsState.constructor | backend/src/main/java/dev/cristianinbits/flashcards/review/domain/CardSrsState.java:93-128 | field initialisers: interval 0, ease 2.50, 0 repetitions, last result 0, no times yet |
| SrsStates.CardSrsState.Load | backend/src/main/java/dev/cristianinbits/flashcards/review/domain/CardSrsState.java:63-87 | a loaded entity holds the stored row under the card's id |
| SrsStates.CardSrsState.PrePersist | backend/src/main/java/dev/cristianinbits/flashcards/review/domain/CardSrsState.java:137-143 | due and update times become now only where unset; nothing else changes |
| SrsStates.CardSrsState.PreUpdate | backend/src/main/java/dev/cristianinbits/flashcards/review/domain/CardSrsState.java:150-152 | the update time always becomes now; nothing else changes |
| Sessions.ReviewSession.Row | backend/src/main/java/dev/cristianinbits/flashcards/review/domain/ReviewSession.java:62-95 | the stored row holds the entity's fields, with a required deck |
| Sessions.ReviewSession.constructor | backend/src/main/java/dev/cristianinbits/flashcards/review/domain/ReviewSession.java:83-95 | a new session has all four counters at 0 and is not finished |
| Sessions.ReviewSession.Load | backend/src/main/java/dev/cristianinbits/flashcards/review/domain/ReviewSession.java:56-95 | a loaded entity holds the stored row under its id |
| Sessions.ReviewSession.PrePersist | backend/src/main/java/dev/cristianinbits/flashcards/review/domain/ReviewSession.java:102-106 | the start time becomes now only when unset |
| Events.ReviewEvent.constructor | backend/src/main/java/dev/cristianinbits/flashcards/review/domain/ReviewEvent.java:74-138 | a new event has no session, card, times or snapshots, result 0 and elapsed time 0 |
| Events.ReviewEvent.PrePersist | backend/src/main/java/dev/cristianinbits/flashcards/review/domain/ReviewEvent.java:145-149 | the answer time becomes now only when unset |
| Store.StoredVersion | backend/src/main/java/dev/cristianinbits/flashcards/review/domain/CardSrsState.java:85-87 | the version of a card's stored state, absent exactly when there is no state |
| Store.NextVersion | backend/src/main/java/dev/cristianinbits/flashcards/review/domain/CardSrsState.java:85-87 | a write moves the version past the one read, starting at 0 for a new row |
| Store.SrsWritten | backend/src/main/java/dev/cristianinbits/flashcards/review/service/ReviewService.java:343 | srsRepo.save: the card's state replaced by the new row, with the version after the one read; Store.SrsWrittenValid states that it keeps the invariants and Store.Database.SaveSrs that the save does this exactly when the version is current |
| Store.EventAppended | backend/src/main/java/dev/cristianinbits/flashcards/review/service/ReviewService.java:344 | events.save: the event appended after the existing ones; Store.EventAppendedValid states that it keeps the invariants |
| Store.SessionWritten | backend/src/main/java/dev/cristianinbits/flashcards/review/service/ReviewService.java:347-353 | the session's row replaced by the counted one; Store.SessionWrittenValid states that it keeps the invariants |
| Store.SessionInserted | backend/src/main/java/dev/cristianinbits/flashcards/review/service/ReviewService.java:122 | sessions.save of a new session: stored under the next free key, which then advances; Store.SessionInsertedValid states that it keeps the invariants |
| Store.CardWritten | backend/src/main/java/dev/cristianinbits/flashcards/card/service/CardService.java:164-173 | the card's row replaced; Store.CardWrittenValid states that it keeps the invariants |
| Store.CardInserted | backend/src/main/java/dev/cristianinbits/flashcards/card/service/CardService.java:99 | cards.save of a new card: stored under the next free key, which then advances; Store.CardInsertedValid states that it keeps the invariants |
| Store.SrsWrittenValid | backend/src/main/java/dev/cristianinbits/flashcards/review/domain/CardSrsState.java:63-128 | writing a state within bounds, for an existing card, keeps every table invariant |
| Store.EventAppendedValid | backend/src/main/java/dev/cristianinbits/flashcards/review/domain/ReviewEvent.java:74-138 | appending an event within bounds, whose card and session exist, keeps every table invariant |
| Store.SessionWrittenValid | backend/src/main/java/dev/cristianinbits/flashcards/review/domain/ReviewSession.java:62-95 | writing a session of an existing deck whose counters add up keeps every table invariant |
| Store.SessionInsertedValid | backend/src/main/java/dev/cristianinbits/flashcards/review/service/ReviewService.java:122 | inserting such a session under a fresh key keeps every table invariant |
| Store.CardWrittenValid | backend/src/main/java/dev/cristianinbits/flashcards/card/service/CardService.java:164-173 | rewriting a card that stays in an existing deck keeps every table invariant |
| Store.CardInsertedValid | backend/src/main/java/dev/cristianinbits/flashcards/card/service/CardService.java:97-99 | inserting a card of an existing deck under a fresh key keeps every table invariant |
| Store.Database.constructor | backend/src/main/java/dev/cristianinbits/flashcards/review/service/ReviewService.java:62-70 | the repositories start as given tables that satisfy the invariants |
| Store.Database.SaveSrs | backend/src/main/java/dev/cristianinbits/flashcards/review/domain/CardSrsState.java:85-87 | the optimistic-lock save writes exactly when the stored version is still the one read, and then bumps it; otherwise nothing changes |
| Store.Database.AppendEvent | backend/src/main/java/dev/cristianinbits/flashcards/review/service/ReviewService.java:344 | the event is appended under the next key; nothing else changes |
| Store.Database.WriteSession | backend/src/main/java/dev/cristianinbits/flashcards/review/service/ReviewService.java:347-353 | the session's row is replaced; nothing else changes |
| Store.Database.InsertSession | backend/src/main/java/dev/cristianinbits/flashcards/review/service/ReviewService.java:122 | the session is stored under a fresh key |
| Store.Database.WriteCard | backend/src/main/java/dev/cristianinbits/flashcards/card/service/CardService.java:164-173 | the card's row is replaced; nothing else changes |
| Store.Database.InsertCard | backend/src/main/java/dev/cristianinbits/flashcards/card/service/CardService.java:99 | the card is stored under a key no card or state uses yet |
| ReviewSpec.ToSessionDto | backend/src/main/java/dev/cristianinbits/flashcards/review/service/ReviewService.java:401-411 | the reply carries every column of the session, with its id |
| ReviewSpec.GetSession | backend/src/main/java/dev/cristianinbits/flashcards/review/service/ReviewService.java:202-206 | an unknown session is NoSuchElement; otherwise its reply |
| ReviewSpec.CreateSession | backend/src/main/java/dev/cristianinbits/flashcards/review/service/ReviewService.java:109-124 | an unknown deck is NoSuchElement and writes nothing; otherwise an open session with zero counters, started at the given time or now, is inserted |
| ReviewSpec.FinishSession | backend/src/main/java/dev/cristianinbits/flashcards/review/service/ReviewService.java:149-172 | unknown session, already finished, or counters whose int sum differs from the total are NoSuchElement, IllegalState and IllegalArgument in that order and write nothing; otherwise the session ends at the given time or now with the request's counters copied |
| ReviewSpec.ValidatedCountersCheckExactSum | backend/src/main/java/dev/cristianinbits/flashcards/review/dto/ReviewSessionFinishRequest.java:21-26 | for counters within the request's @Min(0) bounds, the int check accepts exactly an exact sum |
| ReviewSpec.UnvalidatedCountersWrap | backend/src/main/java/dev/cristianinbits/flashcards/review/service/ReviewService.java:167 | without those bounds, 2^31 - 1 correct and 1 incorrect finish with a total of -2^31 |
| ReviewSpec.FinishTwiceFails | backend/src/main/java/dev/cristianinbits/flashcards/review/service/ReviewService.java:153-155 | a finished session cannot be finished again, and the second call changes nothing |
| ReviewSpec.FinishDiscardsCounts | backend/src/main/java/dev/cristianinbits/flashcards/review/service/ReviewService.java:162-164 | finishing stores the request's counters, not the ones the answers counted |
| ReviewSpec.SessionChangesKeepTablesValid | backend/src/main/java/dev/cristianinbits/flashcards/review/service/ReviewService.java:109-172 | creating and finishing sessions keep every table invariant |
| ReviewSpec.Precheck | backend/src/main/java/dev/cristianinbits/flashcards/review/service/ReviewService.java:261-276 | the checks pass exactly when the card exists and any given session exists, is open and has the card's deck |
| ReviewSpec.StateBefore | backend/src/main/java/dev/cristianinbits/flashcards/review/service/ReviewService.java:279-290 | the stored state, or the bootstrap state due now |
| ReviewSpec.EventOf | backend/src/main/java/dev/cristianinbits/flashcards/review/service/ReviewService.java:329-340 | the event records the answer, the elapsed time clamped at 0, and due time, interval and ease before and after |
| ReviewSpec.Counted | backend/src/main/java/dev/cristianinbits/flashcards/review/service/ReviewService.java:347-353 | one more card, and exactly one of correct/incorrect goes up, each in int arithmetic; counters that add up still do |
| ReviewSpec.FlushPhase | backend/src/main/java/dev/cristianinbits/flashcards/review/service/ReviewService.java:342-353 | the flush conflicts exactly when a concurrent commit landed or the stored version is no longer the one read |
| ReviewSpec.PrecheckIgnoresStates | backend/src/main/java/dev/cristianinbits/flashcards/review/service/ReviewService.java:261-276 | a retry sees the same check results, since the checks read neither states nor events |
| ReviewSpec.FailuresChangeNothing | backend/src/main/java/dev/cristianinbits/flashcards/review/service/ReviewService.java:260-276 | the checks fail in the order card, session, open, same deck with the matching error, an answer outside 0..1 fails validation, and a failed attempt writes nothing |
| ReviewSpec.AttemptAfterChecks | backend/src/main/java/dev/cristianinbits/flashcards/review/service/ReviewService.java:257-356 | for an answer that passes its checks, an attempt commits without a concurrent commit, and otherwise conflicts with the checks still passing |
| ReviewSpec.ConflictIffConcurrentCommit | backend/src/main/java/dev/cristianinbits/flashcards/review/service/ReviewService.java:342-344 | an attempt conflicts exactly when a concurrent commit beat it, and then writes nothing of its own |
| ReviewSpec.CommittedAnswer | backend/src/main/java/dev/cristianinbits/flashcards/review/service/ReviewService.java:278-353 | a committed answer stores the rule applied to the state read, one version up, appends exactly one event with the before/after snapshots, counts the answer once in the session, and changes nothing else |
| ReviewSpec.AttemptKeepsTablesValid | backend/src/main/java/dev/cristianinbits/flashcards/review/service/ReviewService.java:257-356 | every attempt keeps the table invariants: bounds of states and events, foreign keys, counters that add up |
| ReviewSpec.RegisterEvent | backend/src/main/java/dev/cristianinbits/flashcards/review/service/ReviewService.java:233-246 | the loop makes between one and three attempts |
| ReviewSpec.RegisterEventOnce | backend/src/main/java/dev/cristianinbits/flashcards/review/service/ReviewService.java:257-356 | one attempt: a failed check writes nothing, an invalid event is a constraint violation writing nothing, otherwise the flush commits or meets a stale version; ReviewSpec.FlushPhase and the lemmas below state each case |
| ReviewSpec.Flushed | backend/src/main/java/dev/cristianinbits/flashcards/review/service/ReviewService.java:343-353 | the writes of a commit in order: the card's state, the event, then the session's counters when there is a session |
| ReviewSpec.RetryFrom | backend/src/main/java/dev/cristianinbits/flashcards/review/service/ReviewService.java:236-245 | the loop's test: after the third conflict the OptimisticLock error is rethrown, otherwise one more attempt; ReviewSpec.RetryAttempts states the bound on attempts |
| ReviewSpec.AttemptFrom | backend/src/main/java/dev/cristianinbits/flashcards/review/service/ReviewService.java:237-242 | one pass of the loop: a conflict goes back to the test, any other outcome returns at once |
| ReviewSpec.RetryStep | backend/src/main/java/dev/cristianinbits/flashcards/review/service/ReviewService.java:237-244 | a committed or failed attempt ends the loop with its result; a conflict moves to the next attempt |
| ReviewSpec.RetryAttempts | backend/src/main/java/dev/cristianinbits/flashcards/review/service/ReviewService.java:234-245 | the loop ends within three attempts, and the optimistic-lock error comes only after the third |
| ReviewSpec.RetryKeepsTablesValid | backend/src/main/java/dev/cristianinbits/flashcards/review/service/ReviewService.java:233-246 | the retries keep the table invariants |
| ReviewSpec.RetryEndsInLockOrCommit | backend/src/main/java/dev/cristianinbits/flashcards/review/service/ReviewService.java:237-245 | from attempt k, the loop ends in the lock error when every remaining attempt conflicts, and stores the answer otherwise |
| ReviewSpec.ErrorsAreNotRetried | backend/src/main/java/dev/cristianinbits/flashcards/review/service/ReviewService.java:238-240 | any error other than a lock conflict ends the loop after one attempt, with nothing written |
| ReviewSpec.AllBeatenMeans | backend/src/main/java/dev/cristianinbits/flashcards/review/service/ReviewService.java:241-243 | "every remaining attempt is beaten", defined step by step, means a concurrent commit at each remaining attempt |
| ReviewSpec.OptimisticLockIffThreeConflicts | backend/src/main/java/dev/cristianinbits/flashcards/review/service/ReviewService.java:233-246 | for an answer that passes its checks, registerEvent throws the lock error exactly when all three attempts meet a concurrent commit, and otherwise stores the answer |
| ReviewSpec.BothAnswersCount | backend/src/main/java/dev/cristianinbits/flashcards/review/service/ReviewService.java:233-356 | no lost update: after a concurrent answer to the same card, the retry applies this answer on top of it, and the version moves twice |
| ReviewSpec.RegisterEventInOneTransaction | backend/src/main/java/dev/cristianinbits/flashcards/review/service/ReviewService.java:232-246 | registerEvent as the code runs it, with all attempts in one transaction: one attempt, and it gives the loop's outcome when no concurrent commit intervenes |
| ReviewSpec.SingleTransactionLosesAnswer | backend/src/main/java/dev/cristianinbits/flashcards/review/service/ReviewService.java:232-246 | in the race where the loop stores both answers, the single transaction fails with the lock error and stores only the other answer |
| Reviews.ReviewService.constructor | backend/src/main/java/dev/cristianinbits/flashcards/review/service/ReviewService.java:62-70 | the service works on the given repositories |
| Reviews.ReviewService.CreateSession | backend/src/main/java/dev/cristianinbits/flashcards/review/service/ReviewService.java:109-124 | the reply and the new tables are those of ReviewSpec.CreateSession |
| Reviews.ReviewService.FinishSession | backend/src/main/java/dev/cristianinbits/flashcards/review/service/ReviewService.java:149-172 | the reply and the new tables are those of ReviewSpec.FinishSession, including the int sum and the rollback of the setters on a counter mismatch |
| Reviews.ReviewService.Lookup | backend/src/main/java/dev/cristianinbits/flashcards/review/service/ReviewService.java:260-276 | the checks give ReviewSpec.Precheck's result, and the loaded session, if any, holds its stored row |
| Reviews.ReviewService.LoadState | backend/src/main/java/dev/cristianinbits/flashcards/review/service/ReviewService.java:278-290 | the entity holds the stored state or the bootstrap one, and the version read is the stored one |
| Reviews.ReviewService.RegisterEventOnce | backend/src/main/java/dev/cristianinbits/flashcards/review/service/ReviewService.java:257-356 | the reply and the new tables are those of ReviewSpec.RegisterEventOnce |
| Reviews.ReviewService.FinishAttempt | backend/src/main/java/dev/cristianinbits/flashcards/review/service/ReviewService.java:324-355 | after the checks, validation and flush give ReviewSpec.FlushPhase's outcome |
| Reviews.ReviewService.Flush | backend/src/main/java/dev/cristianinbits/flashcards/review/service/ReviewService.java:342-353 | the flush writes nothing when the version read is stale, and otherwise the state, the event and the counted session |
| Reviews.ReviewService.RegisterEvent | backend/src/main/java/dev/cristianinbits/flashcards/review/service/ReviewService.java:233-246 | the while loop returns and leaves the tables exactly as ReviewSpec.RegisterEvent does |
| Reviews.ReviewService.Turn | backend/src/main/java/dev/cristianinbits/flashcards/review/service/ReviewService.java:238-244 | one turn of the loop: it stops with the loop's final result, or says the next attempt yields the same |
| Reviews.ApplyRule | backend/src/main/java/dev/cristianinbits/flashcards/review/service/ReviewService.java:297-326 | the setter sequence leaves the entity holding SrsRule.Schedule of its old row |
| Reviews.NewEvent | backend/src/main/java/dev/cristianinbits/flashcards/review/service/ReviewService.java:329-340 | the event filled through setters holds ReviewSpec.EventOf of the snapshots |
| Reviews.CountAnswer | backend/src/main/java/dev/cristianinbits/flashcards/review/service/ReviewService.java:347-353 | the counters updated in place are ReviewSpec.Counted of the old row |
| DueQuery.PageSize | backend/src/main/java/dev/cristianinbits/flashcards/review/service/ReviewService.java:90 | the page size is the limit clamped to [1, 100] |
| DueQuery.Candidates | backend/src/main/java/dev/cristianinbits/flashcards/review/repo/CardSrsStateRepository.java:34-38 | exactly the cards of the deck whose state is due at or before now |
| DueQuery.FirstExists | backend/src/main/java/dev/cristianinbits/flashcards/review/repo/CardSrsStateRepository.java:39 | a non-empty set of due cards has an earliest one |
| DueQuery.FirstUnique | backend/src/main/java/dev/cristianinbits/flashcards/review/repo/CardSrsStateRepository.java:39 | with ties broken by card id, the earliest card is unique |
| DueQuery.First | backend/src/main/java/dev/cristianinbits/flashcards/review/repo/CardSrsStateRepository.java:39 | the earliest due card of a set |
| DueQuery.ConsFirst | backend/src/main/java/dev/cristianinbits/flashcards/review/repo/CardSrsStateRepository.java:39 | the earliest card followed by an earliest-first listing of the rest is earliest-first |
| DueQuery.FirstDue | backend/src/main/java/dev/cristianinbits/flashcards/review/repo/CardSrsStateRepository.java:34-44 | the first n cards of a set in due order: min(n, size) distinct members, each due no later than any card left out |
| DueQuery.ToCardDto | backend/src/main/java/dev/cristianinbits/flashcards/review/service/ReviewService.java:383-393 | the reply carries every column of the card |
| DueQuery.DuePage | backend/src/main/java/dev/cristianinbits/flashcards/review/repo/CardSrsStateRepository.java:34-44 | a page of due cards of the deck: as many as the page size allows, distinct, in non-decreasing due time, none due later than a due card left out |
| DueQuery.DueCards | backend/src/main/java/dev/cristianinbits/flashcards/review/service/ReviewService.java:85-93 | an unknown deck is NoSuchElement; otherwise at most 100 cards of that page, as replies |
| DueQuery.SmallDeckListsAllDue | backend/src/main/java/dev/cristianinbits/flashcards/review/service/ReviewService.java:90-91 | when the due cards fit in one page, all of them are listed |
| Cards.NormalizeOrEmpty | backend/src/main/java/dev/cristianinbits/flashcards/card/service/CardService.java:238-240 | null becomes the empty text, anything else is trimmed; empty exactly when blank |
| Cards.BlankOrNull | backend/src/main/java/dev/cristianinbits/flashcards/card/service/CardService.java:227-229 | isBlank: null, or nothing left after trim; Cards.SearchPattern states the pattern it decides |
| Cards.NormalizeOrNull | backend/src/main/java/dev/cristianinbits/flashcards/card/service/CardService.java:249-254 | the trimmed text, or null exactly when null or blank |
| Cards.NormalizeIdempotent | backend/src/main/java/dev/cristianinbits/flashcards/card/service/CardService.java:238-254 | normalising twice is normalising once |
| Cards.NormalizeOrNullIsNormOrNull | backend/src/main/java/dev/cristianinbits/flashcards/card/service/CardService.java:249-254 | the card service and the listing query normalise filters the same way |
| Cards.SearchPattern | backend/src/main/java/dev/cristianinbits/flashcards/card/service/CardService.java:137-138 | null for blank input; otherwise "%" + lower-cased input + "%", untrimmed |
| JavaText.ToLowerCase | backend/src/main/java/dev/cristianinbits/flashcards/card/service/CardService.java:138 | toLowerCase keeps the length and maps each Basic Latin or Latin-1 capital to its small letter |
| JavaText.ToLowerCaseIdempotent | backend/src/main/java/dev/cristianinbits/flashcards/card/service/CardService.java:138 | lower-casing twice is lower-casing once |
| Cards.PatternKeepsPadding | backend/src/main/java/dev/cristianinbits/flashcards/card/service/CardService.java:137 | leading blanks of the input stay in the pattern |
| Cards.SearchPatterns | backend/src/main/java/dev/cristianinbits/flashcards/card/service/CardService.java:132-141 | an unknown deck is NoSuchElement; otherwise the two patterns |
| Cards.NewCard | backend/src/main/java/dev/cristianinbits/flashcards/card/service/CardService.java:80-85 | front and back normalised to text, tags to text or null, latex only when TRUE, both times now |
| Cards.CreateCard | backend/src/main/java/dev/cristianinbits/flashcards/card/service/CardService.java:76-101 | an unknown deck is NoSuchElement and writes nothing; otherwise the card and its bootstrap state due now are stored under a fresh key |
| Cards.Edited | backend/src/main/java/dev/cristianinbits/flashcards/card/service/CardService.java:166-171 | text and tags normalised, latex changed only when given, deck and times kept |
| Cards.UpdateCard | backend/src/main/java/dev/cristianinbits/flashcards/card/service/CardService.java:164-173 | an unknown card is NoSuchElement; otherwise the reply shows the edit, and the card is rewritten with update time now only when a field changed |
| Cards.GetCard | backend/src/main/java/dev/cristianinbits/flashcards/card/service/CardService.java:151-153 | an unknown card is NoSuchElement; otherwise its reply |
| Cards.CreatedCardIsDue | backend/src/main/java/dev/cristianinbits/flashcards/card/service/CardService.java:87-97 | a created card is in its deck's due listing at once |
| Cards.CreateKeepsTablesValid | backend/src/main/java/dev/cristianinbits/flashcards/card/service/CardService.java:76-101 | create keeps every table invariant |
| Cards.UpdateKeepsTablesValid | backend/src/main/java/dev/cristianinbits/flashcards/card/service/CardService.java:164-173 | update keeps every table invariant |
| Cards.UpdateTwiceWritesOnce | backend/src/main/java/dev/cristianinbits/flashcards/card/service/CardService.java:164-173 | repeating an update writes nothing more |
| Cards.InitialState | backend/src/main/java/dev/cristianinbits/flashcards/card/service/CardService.java:87-96 | the entity filled through setters holds the bootstrap state for the card |
| Cards.CardService.constructor | backend/src/main/java/dev/cristianinbits/flashcards/card/service/CardService.java:52-61 | the service works on the given repositories |
| Cards.CardService.Create | backend/src/main/java/dev/cristianinbits/flashcards/card/service/CardService.java:76-101 | the reply and the new tables are those of Cards.CreateCard |
| Cards.CardService.Update | backend/src/main/java/dev/cristianinbits/flashcards/card/service/CardService.java:164-173 | the reply and the new tables are those of Cards.UpdateCard |
| JavaText.Trim | backend/src/main/java/dev/cristianinbits/flashcards/card/service/CardService.java:239 | String.trim: the result neither starts nor ends with a character at or below U+0020 |
| JavaText.TrimStart | backend/src/main/java/dev/cristianinbits/flashcards/card/service/CardService.java:239 | the leading half of String.trim: only trimmable characters removed, and the result does not start with one |
| JavaText.TrimEnd | backend/src/main/java/dev/cristianinbits/flashcards/card/service/CardService.java:239 | the trailing half of String.trim: only trimmable characters removed, and the result does not end with one |
| JavaText.IsBlank | backend/src/main/java/dev/cristianinbits/flashcards/common/web/PageQuery.java:62 | String.isBlank: every character is a Java whitespace code point; JavaText.BlankAndTrimDiffer states where it parts from trim().isEmpty() |
| JavaText.HasText | backend/src/main/java/dev/cristianinbits/flashcards/card/api/CardsPageQuery.java:94 | the check Sort.Order makes of its property: not blank; CardsPageQueries.ToPageable states when it holds |
| JavaText.LowerChar | backend/src/main/java/dev/cristianinbits/flashcards/card/service/CardService.java:137-138 | the per-character lower-casing: A..Z and the Latin-1 capitals move 0x20 up, all else is kept; see "## Left out" |
| JavaText.IsDescIgnoreCase | backend/src/main/java/dev/cristianinbits/flashcards/common/web/PageQuery.java:83 | "desc".equalsIgnoreCase: four characters, each d, e, s, c in either case, or U+017F in place of the s; PageQueries.ToPageable states that it picks the descending order |
| JavaText.TrimIsInfix | backend/src/main/java/dev/cristianinbits/flashcards/card/service/CardService.java:252 | the trimmed text is the input with only trimmable characters cut from both ends |
| JavaText.TrimIdempotent | backend/src/main/java/dev/cristianinbits/flashcards/card/api/CardsPageQuery.java:107 | trimming twice is trimming once |
| JavaText.BlankAndTrimDiffer | backend/src/main/java/dev/cristianinbits/flashcards/common/web/PageQuery.java:62 | String.isBlank and trim().isEmpty() disagree on NUL and on the ideographic space |
| JavaText.AsciiBlankTrimsToEmpty | backend/src/main/java/dev/cristianinbits/flashcards/card/api/CardsPageQuery.java:55 | on ASCII text, blank means trimmed to empty |
| JavaText.SplitFirstComma | backend/src/main/java/dev/cristianinbits/flashcards/common/web/PageQuery.java:75-77 | split(",", 2): the text before the first comma and, if there is a comma, the rest |
| JavaText.SplitJoined | backend/src/main/java/dev/cristianinbits/flashcards/common/web/PageQuery.java:75 | splitting "p,d" with no comma in p gives back p and d |
| Paging.DirectionOf | backend/src/main/java/dev/cristianinbits/flashcards/common/web/PageQuery.java:83-85 | DESC exactly when the text equals "desc" ignoring case |
| Paging.DirectionOfText | backend/src/main/java/dev/cristianinbits/flashcards/common/web/PageQuery.java:83-85 | the text of a direction reads back as that direction |
| Paging.PageRequestOf | backend/src/main/java/dev/cristianinbits/flashcards/common/web/PageQuery.java:87 | fails with IllegalArgument exactly when the property has no text, the page is negative or the size is below 1; otherwise the request holds the given page, size, property and direction |
| PageQueries.PageOrDefault | backend/src/main/java/dev/cristianinbits/flashcards/common/web/PageQuery.java:43-45 | the page, or 0 when absent |
| PageQueries.SizeOrDefault | backend/src/main/java/dev/cristianinbits/flashcards/common/web/PageQuery.java:52-54 | the size, or 20 when absent |
| PageQueries.SortOrDefault | backend/src/main/java/dev/cristianinbits/flashcards/common/web/PageQuery.java:61-63 | the sort text unchanged when it has text, otherwise "createdAt,desc" |
| PageQueries.SortParts | backend/src/main/java/dev/cristianinbits/flashcards/common/web/PageQuery.java:75-77 | the property before the first comma and the direction text after it, or "asc" |
| PageQueries.ToPageable | backend/src/main/java/dev/cristianinbits/flashcards/common/web/PageQuery.java:74-88 | succeeds exactly when the property is allowed and the page request is valid, else IllegalArgument; the request is sorted by the property before the comma, DESC exactly for "desc" in any case |
| PageQueries.SortPartsOf | backend/src/main/java/dev/cristianinbits/flashcards/common/web/PageQuery.java:75-77 | "p,d" with no comma in p splits into p and d |
| PageQueries.ToPageableRoundTrip | backend/src/main/java/dev/cristianinbits/flashcards/common/web/PageQuery.java:74-88 | a query written from an allowed property and a direction reads back as that page request |
| PageQueries.ToPageableDefaults | backend/src/main/java/dev/cristianinbits/flashcards/common/web/PageQuery.java:43-63 | an empty query is page 0 of 20 by createdAt descending, when createdAt is allowed |
| PageQueries.NoCommaSortsAscending | backend/src/main/java/dev/cristianinbits/flashcards/common/web/PageQuery.java:77 | a sort text without a comma sorts ascending by that whole text |
| PageQueries.LeadingSpaceIsRejected | backend/src/main/java/dev/cristianinbits/flashcards/common/web/PageQuery.java:62 | " createdAt,desc" is rejected, since the sort text is not trimmed |
| CardsPageQueries.PageOrDefault | backend/src/main/java/dev/cristianinbits/flashcards/card/api/CardsPageQuery.java:35-37 | the page, or 0 when absent |
| CardsPageQueries.SizeOrDefault | backend/src/main/java/dev/cristianinbits/flashcards/card/api/CardsPageQuery.java:44-46 | the size, or 20 when absent |
| CardsPageQueries.SortOrDefault | backend/src/main/java/dev/cristianinbits/flashcards/card/api/CardsPageQuery.java:54-56 | "createdAt,desc" when absent or blank, the trimmed text otherwise |
| CardsPageQueries.NormOrNull | backend/src/main/java/dev/cristianinbits/flashcards/card/api/CardsPageQuery.java:104-109 | the trimmed text, or null exactly when absent or empty once trimmed |
| CardsPageQueries.NormOrNullIdempotent | backend/src/main/java/dev/cristianinbits/flashcards/card/api/CardsPageQuery.java:104-109 | normalising a filter twice is normalising it once |
| CardsPageQueries.QOrNull | backend/src/main/java/dev/cristianinbits/flashcards/card/api/CardsPageQuery.java:63-65 | the text filter trimmed and non-empty, or none exactly when absent or only trimmable characters |
| CardsPageQueries.TagOrNull | backend/src/main/java/dev/cristianinbits/flashcards/card/api/CardsPageQuery.java:72-74 | the tag filter trimmed and non-empty, or none exactly when absent or only trimmable characters |
| CardsPageQueries.SortParts | backend/src/main/java/dev/cristianinbits/flashcards/card/api/CardsPageQuery.java:86-88 | the trimmed text before the first comma and the trimmed rest, or "asc" |
| CardsPageQueries.ToPageable | backend/src/main/java/dev/cristianinbits/flashcards/card/api/CardsPageQuery.java:85-95 | succeeds exactly when the trimmed property is allowed and the page request is valid, else IllegalArgument; the request is sorted by that trimmed property, DESC exactly for "desc" in any case |
| CardsPageQueries.SortPartsOf | backend/src/main/java/dev/cristianinbits/flashcards/card/api/CardsPageQuery.java:86-88 | "head,tail" with no comma in head splits into the trimmed head and tail |
| CardsPageQueries.PaddingIsIgnored | backend/src/main/java/dev/cristianinbits/flashcards/card/api/CardsPageQuery.java:85-95 | " p , desc " selects p descending, just as "p,desc" does |
| CardsPageQueries.PaddedSortParts | backend/src/main/java/dev/cristianinbits/flashcards/card/api/CardsPageQuery.java:86-88 | padding around either piece of the sort text is dropped |
| CardsPageQueries.PaddedSort | backend/src/main/java/dev/cristianinbits/flashcards/card/api/CardsPageQuery.java:55 | a padded sort text is used without its padding |
| CardsPageQueries.TrimOf | backend/src/main/java/dev/cristianinbits/flashcards/card/api/CardsPageQuery.java:107 | trimming removes exactly the padding around a core with non-trimmable ends |
| LegacyReviews.EaseDelta | backend/src/main/java/com/csindila/flashcards/review/service/ReviewService.java:100 | the SM-2 ease change is +0.10, 0.00 and -0.14 for grades 5, 4 and 3 |
| LegacyReviews.MathRound | backend/src/main/java/com/csindila/flashcards/review/service/ReviewService.java:97 | Math.round of a value in hundredths: the integer within half a unit, ties up |
| LegacyReviews.PassInterval | backend/src/main/java/com/csindila/flashcards/review/service/ReviewService.java:91-98 | at least 1 day: 1 for the first repetition, 6 for the second |
| LegacyReviews.Graded | backend/src/main/java/com/csindila/flashcards/review/service/ReviewService.java:78-111 | a grade below 3 adds a lapse, resets repetitions, sets 1 day and lowers the ease by 0.20 down to 1.30; otherwise one more repetition and the SM-2 ease change floored at 1.30; the two counts wrap as ints; due interval-many days after now, reviewed now |
| LegacyReviews.FirstReview | backend/src/main/java/com/csindila/flashcards/review/service/ReviewService.java:63-76 | a card answered for the first time is due now, with interval 0 and ease 2.50 |
| LegacyReviews.ReviewBefore | backend/src/main/java/com/csindila/flashcards/review/service/ReviewService.java:63-69 | the stored review, or the first one |
| LegacyReviews.LogOf | backend/src/main/java/com/csindila/flashcards/review/service/ReviewService.java:116-124 | the log row records grade, due time, interval and ease before and after, the ease in hundredths (see "## Left out"); a previous interval of 0 is null |
| LegacyReviews.ToReviewDto | backend/src/main/java/com/csindila/flashcards/review/service/ReviewService.java:136-145 | the reply carries every column of the review |
| LegacyReviews.SkipMinutes | backend/src/main/java/com/csindila/flashcards/review/service/ReviewService.java:172-173 | a non-positive request postpones by 10 minutes |
| LegacyReviews.IntervalGrowsOnPass | backend/src/main/java/com/csindila/flashcards/review/service/ReviewService.java:96-98 | from the third repetition on, a pass never shortens the interval while the product fits in an int |
| LegacyReviews.EaseHasNoCap | backend/src/main/java/com/csindila/flashcards/review/service/ReviewService.java:100-101 | the rule alone: k answers graded 5 raise the ease by 0.10 each, without an upper bound |
| LegacyReviews.ReplayGrades | backend/src/main/java/com/csindila/flashcards/review/service/ReviewService.java:78-111 | a run of grades applied through LegacyReviews.Graded; LegacyReviews.EaseHasNoCap and RepeatedLapsesFloor state what runs of grades do |
| LegacyReviews.EaseOutgrowsColumn | backend/src/main/java/com/csindila/flashcards/review/domain/Review.java:45 | on a new card the 975th answer graded 5 asks for an ease of 100.00, which the numeric(4,2) column cannot hold; the 974th still fits |
| LegacyReviews.RepeatedLapsesFloor | backend/src/main/java/com/csindila/flashcards/review/service/ReviewService.java:83-88 | k lapses lower the ease by 0.20 each down to 1.30 and add k lapses in int arithmetic |
| LegacyReviews.FirstThreeFives | backend/src/main/java/com/csindila/flashcards/review/service/ReviewService.java:89-101 | three 5s on a new card give 1, 6 and 16 days at ease 2.60, 2.70 and 2.80 |
| LegacyReviews.SkipThenAnswer | backend/src/main/java/com/csindila/flashcards/review/service/ReviewService.java:171-181 | a postponed card's next answer computes the same as without the postponement |
| LegacyReviews.Review.Row | backend/src/main/java/com/csindila/flashcards/review/domain/Review.java:39-55 | the stored row holds the entity's fields |
| LegacyReviews.Review.constructor | backend/src/main/java/com/csindila/flashcards/review/domain/Review.java:39-55 | a new review has interval, repetitions and lapses 0, and no due time or ease yet |
| LegacyReviews.Review.Load | backend/src/main/java/com/csindila/flashcards/review/domain/Review.java:30-55 | a loaded entity holds the stored row |
| LegacyReviews.Review.PrePersist | backend/src/main/java/com/csindila/flashcards/review/domain/Review.java:57-63 | the due time becomes now and the ease 2.50, each only when unset |
| LegacyReviews.GradeReview | backend/src/main/java/com/csindila/flashcards/review/service/ReviewService.java:71-111 | the entity ends up holding LegacyReviews.Graded of the state it was read in |
| LegacyReviews.GradedReviewService.constructor | backend/src/main/java/com/csindila/flashcards/review/service/ReviewService.java:33-35 | the service starts with the given cards and no reviews or logs |
| LegacyReviews.GradedReviewService.Answer | backend/src/main/java/com/csindila/flashcards/review/service/ReviewService.java:56-128 | a grade outside 0..5 is IllegalArgument before the lookup, an unknown card NoSuchElement, an ease above 99.99 a refused write, each changing nothing; otherwise the review becomes the graded answer and one log row is appended; every stored ease fits numeric(4,2) |
| LegacyReviews.GradedReviewService.Skip | backend/src/main/java/com/csindila/flashcards/review/service/ReviewService.java:171-181 | an unknown review is NoSuchElement; otherwise only its due time moves, to now plus the minutes |
| LegacyReviews.GradedReviewService.Get | backend/src/main/java/com/csindila/flashcards/review/service/ReviewService.java:131-134 | an unknown review is NoSuchElement; otherwise its reply |
| LevelLadder.NextLevel | backend/src/main/java/com/CristianInBits/flashcards/services/FlashcardService.java:123-129 | min(level + 1, 4) in int arithmetic when remembered, including the wrap at the largest int; 0 when forgotten |
| LevelLadder.Progress | backend/src/main/java/com/CristianInBits/flashcards/services/FlashcardService.java:121-133 | the lookup fails with IndexOutOfBounds exactly for a level off the table; otherwise the new level and today plus its interval, nothing else changed |
| LevelLadder.LevelStaysOnLadder | backend/src/main/java/com/CristianInBits/flashcards/services/FlashcardService.java:121-133 | a level on the ladder stays on it, so the lookup never fails; forgetting makes the card due today |
| LevelLadder.OutOfBoundsExactly | backend/src/main/java/com/CristianInBits/flashcards/services/FlashcardService.java:125-132 | a remembered answer throws exactly for levels below -1 and for the largest int |
| LevelLadder.ClimbTheLadder | backend/src/main/java/com/CristianInBits/flashcards/services/FlashcardService.java:123-133 | k remembered answers from a level on the ladder climb k levels up to 4 |
| LevelLadder.Replay | backend/src/main/java/com/CristianInBits/flashcards/services/FlashcardService.java:121-133 | a run of answers applied through LevelLadder.Progress, stopping at the first failure; LevelLadder.ClimbTheLadder states where a run of remembered answers leads |
| LevelLadder.Flashcard.Row | backend/src/main/java/com/CristianInBits/flashcards/models/Flashcard.java:37-66 | the stored row holds the entity's fields |
| LevelLadder.Flashcard.Load | backend/src/main/java/com/CristianInBits/flashcards/models/Flashcard.java:37-66 | a loaded entity holds the stored row |
| LevelLadder.FlashcardService.constructor | backend/src/main/java/com/CristianInBits/flashcards/services/FlashcardService.java:29-31 | the service works on the given repository |
| LevelLadder.FlashcardService.GetById | backend/src/main/java/com/CristianInBits/flashcards/services/FlashcardService.java:40-43 | an unknown id is NoSuchElement; otherwise the card |
| LevelLadder.FlashcardService.Delete | backend/src/main/java/com/CristianInBits/flashcards/services/FlashcardService.java:101-106 | returns the removed card or nothing, and removes no other card |
| LevelLadder.FlashcardService.UpdateLearningProgress | backend/src/main/java/com/CristianInBits/flashcards/services/FlashcardService.java:119-136 | an unknown id is NoSuchElement; otherwise the result is LevelLadder.Progress, saved only when it succeeds |
| Stats.CountOn | backend/src/main/java/com/csindila/flashcards/stats/service/StatsService.java:82 | a day without a row counts 0 |
| Stats.DayCounts | backend/src/main/java/com/csindila/flashcards/stats/service/StatsService.java:73-75 | Collectors.toMap: fails with IllegalState exactly when two rows share a day; otherwise maps exactly the rows' days to their counts |
| Stats.DayCountsStep | backend/src/main/java/com/csindila/flashcards/stats/service/StatsService.java:73-75 | how distinct days and day membership extend by one row |
| Stats.FillDaily | backend/src/main/java/com/csindila/flashcards/stats/service/StatsService.java:71-84 | over rows already read as an instant and a count: exactly window entries, consecutive days ending today, each with its queried count or 0; fails exactly on a duplicate day |
| Stats.Dense | backend/src/main/java/com/csindila/flashcards/stats/service/StatsService.java:77-83 | window entries on consecutive days ending today, each with the day's count from the map or 0 |
| Stats.ReadRows | backend/src/main/java/com/csindila/flashcards/stats/service/StatsService.java:74-75 | each native-query row read as its instant and its count, in order, whatever the Java classes of its cells |
| Stats.CollectAsWritten | backend/src/main/java/com/csindila/flashcards/stats/service/StatsService.java:73-75 | Collectors.toMap with the casts `(java.sql.Timestamp)` and `(BigInteger)`: fails exactly when some cast fails or two rows share a day, with ClassCast only when a cast fails; when every cast holds it is Stats.DayCounts of the rows as read |
| Stats.FillDailyAsWritten | backend/src/main/java/com/csindila/flashcards/stats/service/StatsService.java:71-84 | fillDaily over the raw rows: fails whenever a cast fails; when every cast holds it is Stats.FillDaily of the rows as read |
| Stats.LongCountFailsCast | backend/src/main/java/com/csindila/flashcards/stats/service/StatsService.java:75 | a single row whose count is a Long makes fillDaily throw ClassCast, where reading the count as a Number gives a window |
| Stats.WindowEndsToday | backend/src/main/java/com/csindila/flashcards/stats/service/StatsService.java:77-81 | the window's last day is today and each day follows the previous one |
| Stats.Since | backend/src/main/java/com/csindila/flashcards/stats/service/StatsService.java:36 | the query bound is the start of the day `back` days before today |
| Stats.QueryStartsAtWindow | backend/src/main/java/com/csindila/flashcards/stats/service/StatsService.java:35-38 | the query bound is the start of the window's first day |
| Stats.Overview | backend/src/main/java/com/csindila/flashcards/stats/service/StatsService.java:24-41 | the counters as queried and the 7- and 30-day windows, over rows already read; see Stats.FillDaily |
| Stats.DeckOverview | backend/src/main/java/com/csindila/flashcards/stats/service/StatsService.java:43-65 | an unknown deck is NoSuchElement before anything else; otherwise the deck's counters and windows, over rows already read; see Stats.FillDaily |

## Left out

- Real concurrency, JPA flush timing and transactions. Threads and
  interleavings are not modelled.
  - A concurrent commit is a parameter of each attempt, and it lands between
    the attempt's read and its flush.
  - A rollback is modelled as "the tables are unchanged".
  - The ORM's dirty checking appears only where it decides a write
    (`Cards.UpdateCard`).
- The clock: `OffsetDateTime.now` and `LocalDate.now` are parameters. Each
  retry attempt reads its own value.
- Random selection (`getNext` with shuffle, `findOneDueRandom`) and the
  graded scheduler's `getDueQueue`/`getNext`: these are repository queries
  and randomness.
- The controllers, exception handlers, Bean Validation wiring other than the
  event's bounds at persist, security, the JSON bootstrap loader and the
  frontends: these are HTTP, I/O and library code.
- `CardService.listByDeck`, `CardService.delete` and
  `ReviewService.listSessionsByDeck`: pure pass-throughs to Spring Data
  queries. `CardService.search` is modelled up to the patterns it passes to
  its query; the query itself is not modelled.
- The native SQL of `StatsRepository`: counts and per-day rows are inputs of
  `Stats.Overview` and `Stats.DeckOverview`.
- Stats.FillDaily: takes rows already read as an instant and a count, as a
  `(Number)` read would give them. The source's casts are modelled by
  `Stats.FillDailyAsWritten`, which fails on a count that is not a
  `BigInteger` (see "Findings"). Which class the driver returns is not
  modelled; it is a parameter of each row.
- Stats.DayCounts: likewise over rows already read. Its "fails exactly on a
  duplicate day" holds for the source only when every cast succeeds
  (`Stats.CollectAsWritten`).
- The due query's order among cards due at the same instant is unspecified
  in the source; the model breaks ties by card id.
- The `toDto` branch of the graded scheduler that reports a null ease as
  0.0. A stored review always has an ease, so the model has none.
- SrsRule.IntervalNeverShrinks: stated only for intervals up to
  INT_MAX / 3, where the rounded product (at most three times the interval)
  fits in an `int`. Past that bound, `intValue()` wraps
  (`Common.IntValue`) and a correct answer can shorten the interval.
- SrsRule.Schedule: the column `numeric(4,2)` limits are not modelled, and
  neither is overflow of the repetition count past the largest Java `int`.
- LegacyReviews.Graded: the ease is computed in hundredths, not in `double`.
  Only the `Math.round(interval x ease)` tie case can differ from the
  source's floating-point result, where a product such as 2.5 may be
  represented just below the half.
- LegacyReviews.LogOf: the log's `prevEase` and `newEase` are declared
  `Double` (ReviewLog.java:51-55), but `answer` passes them the `BigDecimal`
  ease (ReviewService.java:123-124), for which Java has no conversion to
  `Double`, so that code does not compile as written. The model logs the
  ease before and after in hundredths, as `Review.ease` holds it, which is
  what the calls evidently mean; `LegacyReviews.GradedReviewService.Answer`
  inherits this.
- LegacyReviews.IntervalGrowsOnPass: stated only while the rounded product
  fits in an `int`. Past that, the `(int)` cast wraps (`Common.IntValue`)
  and the interval can shrink.
- ReviewSpec.RetryEndsInLockOrCommit: stated for stored and concurrently
  committed states within the entity's bounds. A state outside them would
  fail validation at the flush.
- ReviewSpec.OptimisticLockIffThreeConflicts: assumes that each attempt
  flushes, and so meets its version check, inside the loop. The source runs
  every attempt in the one transaction of `registerEvent`, which flushes at
  commit after the loop has returned, so a conflict there is never retried
  (`ReviewSpec.RegisterEventInOneTransaction`, and "Findings"). Like
  ReviewSpec.RetryEndsInLockOrCommit, it is stated for states within the
  entity's bounds.
- ReviewSpec.BothAnswersCount: holds for the loop that flushes each attempt,
  not for the code as written, where the same race loses this answer
  (`ReviewSpec.SingleTransactionLosesAnswer`).
- ReviewSpec.RegisterEventInOneTransaction: for a card with no stored state,
  a concurrent first answer makes the commit fail on the duplicate key
  rather than on the version. The model reports that case as the
  optimistic-lock failure too.
- JavaText.ToLowerCase: lowers only the capitals of Basic Latin (A..Z) and
  Latin-1 (U+00C0..U+00DE except U+00D7), one character each, and keeps
  every other character. Java's `String.toLowerCase` also maps the capitals
  of every other script, depends on the default locale, and maps U+0130 to
  two characters. `JavaText.LowerChar` and `JavaText.ToLowerCaseIdempotent`
  carry the same restriction.
- Cards.SearchPattern: lower-cases only the capitals of Basic Latin and
  Latin-1, one character each. Java's `String.toLowerCase` maps every
  script, follows the default locale (in a Turkish locale 'I' becomes a
  dotless 'ı'), and turns U+0130 into two characters. For such input the
  source's pattern differs, and it can be longer than the input plus two.

## Findings

| source | as written | input that shows it | evidently intended | confidence | as-written member | corrected member |
|---|---|---|---|---|---|---|
| backend/src/main/java/dev/cristianinbits/flashcards/review/service/ReviewService.java:232-246 | `registerEvent` is `@Transactional` and calls `registerEventOnce` on itself, so all attempts share one transaction. Nothing flushes inside the loop, so the version check runs at commit, outside the `catch`, and a conflict is never retried | a card with a stored state, answered while another transaction commits an answer to the same card between this one's read and its commit | the conflicting attempt is retried on the new state, up to three attempts, so both answers count | not executed; medium, since it rests on Spring's proxy-based transactions and Hibernate's flush at commit | ReviewSpec.SingleTransactionLosesAnswer | ReviewSpec.BothAnswersCount |
| backend/src/main/java/com/csindila/flashcards/stats/service/StatsService.java:74-75 | `fillDaily` casts each row's cells with `(java.sql.Timestamp) r[0]` and `(BigInteger) r[1]`. The count column of the native `count(*)` query is a `BigInteger` only under some drivers and ORM versions | a day with reviews in the window, when the count comes back as a `Long`, as Hibernate 6 (under Spring Boot 3.5.6, backend/build.gradle.kts:3) returns for `count(*)` | read the count as a `Number`, as StatsRepository.java:22-23 does for its own counts, so the window is filled | not executed; medium, since the class of the count depends on the driver and the ORM version | Stats.LongCountFailsCast | Stats.FillDaily |
