/** The card service of the current backend: creating a card together with
    the scheduling state that puts it in the review queue at once, updating
    its text, and building the patterns of a card search. Text fields are
    normalised by trimming; Java's null is None. */
module Cards {

  import opened Common
  import opened JavaText
  import opened SrsStates
  import opened SrsRule
  import opened Store
  import opened DueQuery
  import CardsPageQueries

  datatype CardCreateRequest = CardCreateRequest(
    deckId: DeckId, front: Option<string>, back: Option<string>, tags: Option<string>, latex: Option<bool>)

  datatype CardUpdateRequest = CardUpdateRequest(
    front: Option<string>, back: Option<string>, tags: Option<string>, latex: Option<bool>)

  // ---------------------------------------------------------------------
  // Normalisation
  // ---------------------------------------------------------------------

  /** isBlank: null, or nothing left after String.trim(). */
  predicate BlankOrNull(s: Option<string>) {
    s.None? || Trim(s.value) == []
  }

  /** normalizeOrEmpty: null becomes the empty text, anything else is
      trimmed. */
  function NormalizeOrEmpty(s: Option<string>): (r: string)
    ensures r == [] <==> BlankOrNull(s)
    ensures r == [] || (!IsTrimmable(r[0]) && !IsTrimmable(r[|r| - 1]))
    ensures s.Some? ==> r == Trim(s.value)
  {
    if s.None? then [] else Trim(s.value)
  }

  /** normalizeOrNull: trimmed text, or null when null or nothing is left. */
  function NormalizeOrNull(s: Option<string>): (r: Option<string>)
    ensures r.None? <==> BlankOrNull(s)
    ensures r.Some? ==> r.value == NormalizeOrEmpty(s) != []
  {
    if s.None? then None
    else
      var t := Trim(s.value);
      if t == [] then None else Some(t)
  }

  /** Normalising twice is normalising once. */
  lemma {:induction false} NormalizeIdempotent(s: Option<string>)
    ensures NormalizeOrEmpty(Some(NormalizeOrEmpty(s))) == NormalizeOrEmpty(s)
    ensures NormalizeOrNull(NormalizeOrNull(s)) == NormalizeOrNull(s)
  {
    if s.Some? {
      TrimIdempotent(s.value);
    }
  }

  /** The card service and the paging query normalise tags and search text
      the same way. */
  lemma {:induction false} NormalizeOrNullIsNormOrNull(s: Option<string>)
    ensures NormalizeOrNull(s) == CardsPageQueries.NormOrNull(s)
  {
    if s.Some? {
      TrimIsInfix(s.value);
    }
  }

  /** The LIKE pattern of search: null for a blank input, otherwise the input
      lower-cased, untrimmed, between two '%'. Lower-casing is that of
      JavaText.ToLowerCase, one character for one. */
  function SearchPattern(s: Option<string>): (r: Option<string>)
    ensures r.None? <==> BlankOrNull(s)
    ensures r.Some? ==> && |r.value| == |s.value| + 2
                        && r.value[0] == '%' && r.value[|r.value| - 1] == '%'
                        && r.value[1..|r.value| - 1] == ToLowerCase(s.value)
  {
    if BlankOrNull(s) then None else Some("%" + ToLowerCase(s.value) + "%")
  }

  /** Padding is part of the pattern: the search text is not trimmed, so a
      leading space stays in the pattern right after the first '%'. */
  lemma {:induction false} PatternKeepsPadding(s: string)
    requires |s| >= 2 && s[0] == ' ' && !IsTrimmable(s[1])
    ensures SearchPattern(Some(s)).Some? && SearchPattern(Some(s)).value[1] == ' '
  {
    TrimIsInfix(s);
  }

  /** search, up to the query: an unknown deck is an error; otherwise the text
      and tag patterns the query receives. */
  function SearchPatterns(t: Tables, deck: DeckId, q: Option<string>, tag: Option<string>)
    : (r: Result<(Option<string>, Option<string>)>)
    ensures r.Err? <==> deck !in t.decks
    ensures r.Err? ==> r.error == NoSuchElement
    ensures r.Ok? ==> r.value == (SearchPattern(q), SearchPattern(tag))
  {
    if deck !in t.decks then Err(NoSuchElement) else Ok((SearchPattern(q), SearchPattern(tag)))
  }

  // ---------------------------------------------------------------------
  // create and update on the tables
  // ---------------------------------------------------------------------

  /** The card create stores: normalised text, tags or null, latex only when
      the request says true, and both time stamps at now. */
  function NewCard(req: CardCreateRequest, now: Instant): (c: Card)
    ensures c.deckId == req.deckId
    ensures c.front == NormalizeOrEmpty(req.front) && c.back == NormalizeOrEmpty(req.back)
    ensures c.tags == NormalizeOrNull(req.tags)
    ensures c.latex <==> req.latex == Some(true)
    ensures c.createdAt == now && c.updatedAt == now
  {
    Card(req.deckId, NormalizeOrEmpty(req.front), NormalizeOrEmpty(req.back), NormalizeOrNull(req.tags),
         req.latex == Some(true), now, now)
  }

  /** create: an unknown deck is an error and writes nothing; otherwise the
      card is stored under a fresh key with a scheduling state due now, and
      nothing else changes. */
  function CreateCard(t: Tables, req: CardCreateRequest, now: Instant): (r: (Result<CardDto>, Tables))
    ensures r.0.Err? <==> req.deckId !in t.decks
    ensures r.0.Err? ==> r.0.error == NoSuchElement && r.1 == t
    ensures r.0.Ok? ==>
              && r.0.value == ToCardDto(t.nextId, NewCard(req, now))
              && r.1.cards == t.cards[t.nextId := NewCard(req, now)]
              && r.1.srs == t.srs[t.nextId := Bootstrap(now)]
              && r.1.nextId == t.nextId + 1
              && r.1.decks == t.decks && r.1.sessions == t.sessions && r.1.events == t.events
  {
    if req.deckId !in t.decks then (Err(NoSuchElement), t)
    else
      var id := t.nextId;
      var t1 := CardInserted(t, NewCard(req, now));
      (Ok(ToCardDto(id, NewCard(req, now))), SrsWritten(t1, id, None, Bootstrap(now)))
  }

  /** The card update leaves: new text and tags, latex only when given. */
  function Edited(c: Card, req: CardUpdateRequest): (e: Card)
    ensures e.front == NormalizeOrEmpty(req.front) && e.back == NormalizeOrEmpty(req.back)
    ensures e.tags == NormalizeOrNull(req.tags)
    ensures req.latex.Some? ==> e.latex == req.latex.value
    ensures req.latex.None? ==> e.latex == c.latex
    ensures e.deckId == c.deckId && e.createdAt == c.createdAt && e.updatedAt == c.updatedAt
  {
    c.(front := NormalizeOrEmpty(req.front), back := NormalizeOrEmpty(req.back), tags := NormalizeOrNull(req.tags),
       latex := if req.latex.Some? then req.latex.value else c.latex)
  }

  /** update: an unknown card is an error. Otherwise the reply shows the
      edited card with its old update time, because the update hook only runs
      at the flush after the reply is built; the flush happens only if some
      field changed, and then stores the update time now. */
  function UpdateCard(t: Tables, id: CardId, req: CardUpdateRequest, now: Instant): (r: (Result<CardDto>, Tables))
    ensures r.0.Err? <==> id !in t.cards
    ensures r.0.Err? ==> r.0.error == NoSuchElement && r.1 == t
    ensures r.0.Ok? ==>
              var e := Edited(t.cards[id], req);
              && r.0.value == ToCardDto(id, e)
              && r.1 == (if e == t.cards[id] then t else CardWritten(t, id, e.(updatedAt := now)))
  {
    if id !in t.cards then (Err(NoSuchElement), t)
    else
      var e := Edited(t.cards[id], req);
      (Ok(ToCardDto(id, e)), if e == t.cards[id] then t else CardWritten(t, id, e.(updatedAt := now)))
  }

  /** get. */
  function GetCard(t: Tables, id: CardId): (r: Result<CardDto>)
    ensures r.Err? <==> id !in t.cards
    ensures r.Err? ==> r.error == NoSuchElement
    ensures r.Ok? ==> r.value == ToCardDto(id, t.cards[id])
  {
    if id !in t.cards then Err(NoSuchElement) else Ok(ToCardDto(id, t.cards[id]))
  }

  /** A created card is in the review queue at once: its state is due at the
      creation time, so the due listing of its deck at that time or later
      selects it. */
  lemma {:induction false} CreatedCardIsDue(t: Tables, req: CardCreateRequest, now: Instant, later: Instant)
    requires TablesValid(t) && req.deckId in t.decks && now <= later
    ensures var (r, t1) := CreateCard(t, req, now);
            r.Ok? && r.value.id in Candidates(t1, req.deckId, later)
  {
    var (r, t1) := CreateCard(t, req, now);
    var id := t.nextId;
    assert id in t1.srs && id in t1.cards;
    assert t1.cards[id].deckId == req.deckId && t1.srs[id].dueAt == now;
  }

  /** create keeps the store's invariants. */
  lemma {:induction false} CreateKeepsTablesValid(t: Tables, req: CardCreateRequest, now: Instant)
    requires TablesValid(t)
    ensures TablesValid(CreateCard(t, req, now).1)
  {
    if req.deckId in t.decks {
      var c := NewCard(req, now);
      var t1 := CardInserted(t, c);
      CardInsertedValid(t, c);
      assert t.nextId in t1.cards;
      SrsWrittenValid(t1, t.nextId, None, Bootstrap(now));
      assert CreateCard(t, req, now).1 == SrsWritten(t1, t.nextId, None, Bootstrap(now));
    }
  }

  /** update keeps the store's invariants: the card stays in its deck. */
  lemma {:induction false} UpdateKeepsTablesValid(t: Tables, id: CardId, edit: CardUpdateRequest, now: Instant)
    requires TablesValid(t)
    ensures TablesValid(UpdateCard(t, id, edit, now).1)
  {
    if id in t.cards {
      var e := Edited(t.cards[id], edit);
      assert e.deckId == t.cards[id].deckId;
      CardWrittenValid(t, id, e.(updatedAt := now));
    }
  }

  /** Repeating an update changes nothing more: the second one finds every
      field already as requested, so it does not flush and the stored update
      time stays that of the first. */
  lemma {:induction false} UpdateTwiceWritesOnce(t: Tables, id: CardId, req: CardUpdateRequest, now: Instant, later: Instant)
    requires id in t.cards
    ensures var t1 := UpdateCard(t, id, req, now).1;
            UpdateCard(t1, id, req, later).1 == t1
  {
    var c := t.cards[id];
    var e := Edited(c, req);
    NormalizeIdempotent(req.front);
    NormalizeIdempotent(req.back);
    NormalizeIdempotent(req.tags);
    var t1 := UpdateCard(t, id, req, now).1;
    assert Edited(t1.cards[id], req) == t1.cards[id];
  }

  // ---------------------------------------------------------------------
  // The service
  // ---------------------------------------------------------------------

  /** The scheduling state create sets up through the entity's setters
      before saving it: due now, no interval, the default ease. */
  method InitialState(id: CardId, now: Instant) returns (srs: CardSrsState)
    ensures fresh(srs) && srs.Persistable() && srs.cardId == Some(id)
    ensures srs.Row() == Bootstrap(now)
  {
    srs := new CardSrsState();
    srs.cardId := Some(id);
    srs.dueAt := Some(now);
    srs.intervalDays := 0;
    srs.easeFactor := EASE_DEFAULT;
    srs.repetitions := 0;
    srs.lastResult := 0;
    srs.updatedAt := Some(now);
    srs.PrePersist(now);
  }

  class CardService {
    const db: Database

    constructor(db: Database)
      ensures this.db == db
    {
      this.db := db;
    }

    /** create: the card is inserted, then its scheduling state is set up
        through the entity's setters and saved under the card's key. */
    method Create(req: CardCreateRequest, now: Instant) returns (r: Result<CardDto>)
      requires db.Valid()
      modifies db
      ensures db.Valid()
      ensures (r, db.State()) == CreateCard(old(db.State()), req, now)
    {
      if req.deckId !in db.decks {
        return Err(NoSuchElement);
      }
      var c := Card(req.deckId, NormalizeOrEmpty(req.front), NormalizeOrEmpty(req.back),
                    NormalizeOrNull(req.tags), req.latex == Some(true), now, now);
      var id := db.InsertCard(c);
      var srs := InitialState(id, now);
      var ok := db.SaveSrs(id, None, srs.Row());
      assert ok;
      r := Ok(ToCardDto(id, c));
    }

    /** update: the loaded card is edited field by field; the reply is built
        before the flush. */
    method Update(id: CardId, req: CardUpdateRequest, now: Instant) returns (r: Result<CardDto>)
      requires db.Valid()
      modifies db
      ensures db.Valid()
      ensures (r, db.State()) == UpdateCard(old(db.State()), id, req, now)
    {
      if id !in db.cards {
        return Err(NoSuchElement);
      }
      var loaded := db.cards[id];
      var c := loaded;
      c := c.(front := NormalizeOrEmpty(req.front));
      c := c.(back := NormalizeOrEmpty(req.back));
      c := c.(tags := NormalizeOrNull(req.tags));
      if req.latex.Some? {
        c := c.(latex := req.latex.value);
      }
      r := Ok(ToCardDto(id, c));
      if c != loaded {
        db.WriteCard(id, c.(updatedAt := now));
      }
    }
  }
}
