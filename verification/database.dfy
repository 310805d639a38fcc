/** The tables the current engine reads and writes, as one mutable store. Each
    table is a map from key to row (the review events are an append-only log
    whose key is the position). Inserting a card or a session takes the next
    fresh key; writing a scheduling state is a compare-and-increment on its
    version, which is how a stale write is detected. */
module Store {

  import opened Common
  import opened SrsStates
  import opened Sessions
  import opened Events

  /** A stored card row, without its key. */
  datatype Card = Card(
    deckId: DeckId,
    front: string,
    back: string,
    tags: Option<string>,
    latex: bool,
    createdAt: Instant,
    updatedAt: Instant)

  /** The content of the store as a value. */
  datatype Tables = Tables(
    decks: set<DeckId>,
    cards: map<CardId, Card>,
    srs: map<CardId, SrsRow>,
    sessions: map<SessionId, SessionRow>,
    events: seq<EventRow>,
    nextId: nat)

  /** Foreign keys hold, every stored row passed validation, generated keys
      are below the next fresh key, and each session's counters agree. */
  predicate TablesValid(t: Tables) {
    && (forall c :: c in t.cards ==> t.cards[c].deckId in t.decks && c < t.nextId)
    && (forall c :: c in t.srs ==> c in t.cards && RowValid(t.srs[c]))
    && (forall s :: s in t.sessions ==> t.sessions[s].deckId in t.decks && s < t.nextId)
    && (forall s :: s in t.sessions ==> CountersAgree(t.sessions[s]))
    && (forall i :: 0 <= i < |t.events| ==> EventValid(t.events[i]))
    && (forall i :: 0 <= i < |t.events| ==> t.events[i].cardId in t.cards)
    && (forall i :: 0 <= i < |t.events| && t.events[i].sessionId.Some? ==> t.events[i].sessionId.value in t.sessions)
  }

  /** The version a write must have read to succeed: none for a card without
      a stored state. */
  function StoredVersion(t: Tables, id: CardId): (v: Option<nat>)
    ensures v.Some? <==> id in t.srs
    ensures v.Some? ==> v.value == t.srs[id].version
  {
    if id in t.srs then Some(t.srs[id].version) else None
  }

  /** @Version: an insert starts at 0 and every update adds 1. */
  function NextVersion(read: Option<nat>): (v: nat)
    ensures read.Some? ==> v > read.value
    ensures read.None? ==> v == 0
  {
    if read.None? then 0 else read.value + 1
  }

  /** The state of a card written by a transaction that read version `read`. */
  function SrsWritten(t: Tables, id: CardId, read: Option<nat>, row: SrsRow): Tables {
    t.(srs := t.srs[id := row.(version := NextVersion(read))])
  }

  function EventAppended(t: Tables, e: EventRow): Tables {
    t.(events := t.events + [e])
  }

  function SessionWritten(t: Tables, id: SessionId, row: SessionRow): Tables {
    t.(sessions := t.sessions[id := row])
  }

  function SessionInserted(t: Tables, row: SessionRow): Tables {
    t.(sessions := t.sessions[t.nextId := row], nextId := t.nextId + 1)
  }

  function CardWritten(t: Tables, id: CardId, c: Card): Tables {
    t.(cards := t.cards[id := c])
  }

  function CardInserted(t: Tables, c: Card): Tables {
    t.(cards := t.cards[t.nextId := c], nextId := t.nextId + 1)
  }

  /** Each write keeps the tables valid when the row it writes is valid and
      its keys exist. */
  lemma {:induction false} SrsWrittenValid(t: Tables, id: CardId, read: Option<nat>, row: SrsRow)
    requires TablesValid(t) && id in t.cards && RowValid(row)
    ensures TablesValid(SrsWritten(t, id, read, row))
  {
  }

  lemma {:induction false} EventAppendedValid(t: Tables, e: EventRow)
    requires TablesValid(t) && EventValid(e) && e.cardId in t.cards
    requires e.sessionId.Some? ==> e.sessionId.value in t.sessions
    ensures TablesValid(EventAppended(t, e))
  {
    var t1 := EventAppended(t, e);
    assert forall i :: 0 <= i < |t.events| ==> t1.events[i] == t.events[i];
  }

  lemma {:induction false} SessionWrittenValid(t: Tables, id: SessionId, row: SessionRow)
    requires TablesValid(t) && id in t.sessions && row.deckId in t.decks && CountersAgree(row)
    ensures TablesValid(SessionWritten(t, id, row))
  {
  }

  lemma {:induction false} SessionInsertedValid(t: Tables, row: SessionRow)
    requires TablesValid(t) && row.deckId in t.decks && CountersAgree(row)
    ensures TablesValid(SessionInserted(t, row)) && t.nextId !in t.sessions
  {
  }

  lemma {:induction false} CardWrittenValid(t: Tables, id: CardId, c: Card)
    requires TablesValid(t) && id in t.cards && c.deckId in t.decks
    ensures TablesValid(CardWritten(t, id, c))
  {
  }

  lemma {:induction false} CardInsertedValid(t: Tables, c: Card)
    requires TablesValid(t) && c.deckId in t.decks
    ensures TablesValid(CardInserted(t, c)) && t.nextId !in t.cards && t.nextId !in t.srs
  {
  }

  class Database {
    var decks: set<DeckId>
    var cards: map<CardId, Card>
    var srs: map<CardId, SrsRow>
    var sessions: map<SessionId, SessionRow>
    var events: seq<EventRow>
    var nextId: nat

    function State(): Tables
      reads this
    {
      Tables(decks, cards, srs, sessions, events, nextId)
    }

    predicate Valid()
      reads this
    {
      TablesValid(State())
    }

    constructor(t: Tables)
      requires TablesValid(t)
      ensures State() == t && Valid()
    {
      decks := t.decks;
      cards := t.cards;
      srs := t.srs;
      sessions := t.sessions;
      events := t.events;
      nextId := t.nextId;
    }

    /** Flush of a card's state under optimistic locking: the write succeeds
        only when the stored version is still the one read, and then stores the
        row with the next version. */
    method SaveSrs(id: CardId, read: Option<nat>, row: SrsRow) returns (ok: bool)
      requires Valid() && id in cards && RowValid(row)
      modifies this`srs
      ensures Valid()
      ensures ok <==> read == StoredVersion(old(State()), id)
      ensures State() == if ok then SrsWritten(old(State()), id, read, row) else old(State())
    {
      ok := read == StoredVersion(State(), id);
      if ok {
        SrsWrittenValid(State(), id, read, row);
        srs := srs[id := row.(version := NextVersion(read))];
      }
    }

    method AppendEvent(e: EventRow) returns (key: nat)
      requires Valid() && EventValid(e) && e.cardId in cards
      requires e.sessionId.Some? ==> e.sessionId.value in sessions
      modifies this`events
      ensures Valid()
      ensures key == |old(events)|
      ensures State() == EventAppended(old(State()), e)
    {
      EventAppendedValid(State(), e);
      key := |events|;
      events := events + [e];
    }

    method WriteSession(id: SessionId, row: SessionRow)
      requires Valid() && id in sessions && row.deckId in decks && CountersAgree(row)
      modifies this`sessions
      ensures Valid()
      ensures State() == SessionWritten(old(State()), id, row)
    {
      SessionWrittenValid(State(), id, row);
      sessions := sessions[id := row];
    }

    method InsertSession(row: SessionRow) returns (id: SessionId)
      requires Valid() && row.deckId in decks && CountersAgree(row)
      modifies this`sessions, this`nextId
      ensures Valid()
      ensures id == old(nextId) && id !in old(sessions)
      ensures State() == SessionInserted(old(State()), row)
    {
      SessionInsertedValid(State(), row);
      id := nextId;
      sessions := sessions[id := row];
      nextId := nextId + 1;
    }

    method WriteCard(id: CardId, c: Card)
      requires Valid() && id in cards && c.deckId in decks
      modifies this`cards
      ensures Valid()
      ensures State() == CardWritten(old(State()), id, c)
    {
      CardWrittenValid(State(), id, c);
      cards := cards[id := c];
    }

    method InsertCard(c: Card) returns (id: CardId)
      requires Valid() && c.deckId in decks
      modifies this`cards, this`nextId
      ensures Valid()
      ensures id == old(nextId) && id !in old(cards) && id !in old(srs)
      ensures State() == CardInserted(old(State()), c)
    {
      CardInsertedValid(State(), c);
      id := nextId;
      cards := cards[id := c];
      nextId := nextId + 1;
    }
  }
}
