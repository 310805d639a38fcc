/** The due-card listing of a deck: the cards of the deck whose scheduling
    state is due by now, earliest due first, one page of them. The query does
    not order cards that are due at the same instant; the model picks the
    lower card id first, which is one of the orders the query allows, and its
    contract states only what the query promises. */
module DueQuery {

  import opened Common
  import opened SrsStates
  import opened Store

  const MAX_PAGE_SIZE: int := 100

  /** Math.max(1, Math.min(limit, 100)). */
  function PageSize(limit: int): (n: int)
    ensures 1 <= n <= MAX_PAGE_SIZE
    ensures 1 <= limit <= MAX_PAGE_SIZE ==> n == limit
    ensures limit < 1 ==> n == 1
    ensures limit > MAX_PAGE_SIZE ==> n == MAX_PAGE_SIZE
  {
    Max(1, Min(limit, MAX_PAGE_SIZE))
  }

  /** The rows the query's join and filter select: a state joined to its card,
      the card in the deck, the state due at or before now. */
  function Candidates(t: Tables, deck: DeckId, now: Instant): (ids: set<CardId>)
    ensures ids <= t.srs.Keys
    ensures forall c :: c in ids <==> c in t.srs && c in t.cards && t.cards[c].deckId == deck && t.srs[c].dueAt <= now
  {
    set c | c in t.srs && c in t.cards && t.cards[c].deckId == deck && t.srs[c].dueAt <= now
  }

  /** The order the model uses: due time first, card id among equal due times. */
  predicate DueFirst(t: Tables, a: CardId, b: CardId)
    requires a in t.srs && b in t.srs
  {
    t.srs[a].dueAt < t.srs[b].dueAt || (t.srs[a].dueAt == t.srs[b].dueAt && a <= b)
  }

  predicate IsFirst(t: Tables, ids: set<CardId>, m: CardId)
    requires ids <= t.srs.Keys
  {
    m in ids && forall o :: o in ids ==> DueFirst(t, m, o)
  }

  lemma {:induction false} FirstExists(t: Tables, ids: set<CardId>)
    requires ids <= t.srs.Keys && ids != {}
    ensures exists m :: IsFirst(t, ids, m)
    decreases |ids|
  {
    var a :| a in ids;
    if ids - {a} == {} {
      assert ids == {a};
      assert IsFirst(t, ids, a);
    } else {
      FirstExists(t, ids - {a});
      var m :| IsFirst(t, ids - {a}, m);
      if DueFirst(t, m, a) {
        assert IsFirst(t, ids, m);
      } else {
        forall o | o in ids
          ensures DueFirst(t, a, o)
        {
          if o != a {
            assert DueFirst(t, m, o);
          }
        }
        assert IsFirst(t, ids, a);
      }
    }
  }

  /** No two members of ids are both first: the order is total. */
  lemma {:induction false} FirstUnique(t: Tables, ids: set<CardId>)
    requires ids <= t.srs.Keys
    ensures forall a, b :: IsFirst(t, ids, a) && IsFirst(t, ids, b) ==> a == b
  {
    forall a, b | IsFirst(t, ids, a) && IsFirst(t, ids, b)
      ensures a == b
    {
      assert DueFirst(t, a, b) && DueFirst(t, b, a);
    }
  }

  /** The first member of a non-empty set in the model's order. */
  function First(t: Tables, ids: set<CardId>): (m: CardId)
    requires ids <= t.srs.Keys && ids != {}
    ensures IsFirst(t, ids, m)
  {
    FirstExists(t, ids);
    FirstUnique(t, ids);
    var m :| IsFirst(t, ids, m);
    m
  }

  /** r lists distinct members of ids, earliest due first, and no member of
      ids left out is due earlier than one listed. */
  predicate EarliestFirst(t: Tables, ids: set<CardId>, r: seq<CardId>)
    requires ids <= t.srs.Keys
  {
    && (forall i :: 0 <= i < |r| ==> r[i] in ids)
    && (forall i, j :: 0 <= i < j < |r| ==> r[i] != r[j])
    && (forall i, j :: 0 <= i < j < |r| ==> t.srs[r[i]].dueAt <= t.srs[r[j]].dueAt)
    && (forall i, c :: 0 <= i < |r| && c in ids && c !in r ==> t.srs[r[i]].dueAt <= t.srs[c].dueAt)
  }

  /** Putting the first of ids in front of such a listing of the others
      gives such a listing of ids. */
  lemma {:induction false} ConsFirst(t: Tables, ids: set<CardId>, m: CardId, rest: seq<CardId>)
    requires ids <= t.srs.Keys && IsFirst(t, ids, m)
    requires EarliestFirst(t, ids - {m}, rest)
    ensures EarliestFirst(t, ids, [m] + rest)
  {
    var r := [m] + rest;
    assert forall i :: 1 <= i < |r| ==> r[i] == rest[i - 1];
    forall i, c | 0 <= i < |r| && c in ids && c !in r
      ensures t.srs[r[i]].dueAt <= t.srs[c].dueAt
    {
      assert c != m && c !in rest;
    }
  }

  /** At most n of the given states, earliest due first. */
  function FirstDue(t: Tables, ids: set<CardId>, n: nat): (r: seq<CardId>)
    requires ids <= t.srs.Keys
    ensures |r| == Min(n, |ids|)
    ensures EarliestFirst(t, ids, r)
    decreases n
  {
    if n == 0 || ids == {} then []
    else
      var m := First(t, ids);
      var rest := FirstDue(t, ids - {m}, n - 1);
      ConsFirst(t, ids, m, rest);
      [m] + rest
  }

  /** The listing as the client receives it. */
  datatype CardDto = CardDto(
    id: CardId, deckId: DeckId, front: string, back: string, tags: Option<string>,
    latex: bool, createdAt: Instant, updatedAt: Instant)

  /** toCardDto: every field of the card, with its id. */
  function ToCardDto(id: CardId, c: Card): (d: CardDto)
    ensures d.id == id && d.deckId == c.deckId && d.front == c.front && d.back == c.back
    ensures d.tags == c.tags && d.latex == c.latex
    ensures d.createdAt == c.createdAt && d.updatedAt == c.updatedAt
  {
    CardDto(id, c.deckId, c.front, c.back, c.tags, c.latex, c.createdAt, c.updatedAt)
  }

  /** The card ids of the first page of due cards of a deck: at most the
      page size of them, each one due, none twice, earliest due first, and no
      due card left out that is due earlier than one returned. */
  function DuePage(t: Tables, deck: DeckId, limit: int, now: Instant): (r: seq<CardId>)
    ensures |r| == Min(PageSize(limit), |Candidates(t, deck, now)|)
    ensures forall i :: 0 <= i < |r| ==>
              r[i] in t.cards && t.cards[r[i]].deckId == deck && r[i] in t.srs && t.srs[r[i]].dueAt <= now
    ensures forall i, j :: 0 <= i < j < |r| ==> r[i] != r[j]
    ensures forall i, j :: 0 <= i < j < |r| ==> t.srs[r[i]].dueAt <= t.srs[r[j]].dueAt
    ensures forall i, c :: 0 <= i < |r| && c in Candidates(t, deck, now) && c !in r ==> t.srs[r[i]].dueAt <= t.srs[c].dueAt
  {
    FirstDue(t, Candidates(t, deck, now), PageSize(limit))
  }

  /** dueCards: an unknown deck is an error; otherwise the cards of the first
      page of due states, in the page's order. */
  function DueCards(t: Tables, deck: DeckId, limit: int, now: Instant): (r: Result<seq<CardDto>>)
    ensures r.Err? <==> deck !in t.decks
    ensures r.Err? ==> r.error == NoSuchElement
    ensures r.Ok? ==> |r.value| == |DuePage(t, deck, limit, now)| <= MAX_PAGE_SIZE
    ensures r.Ok? ==> forall i :: 0 <= i < |r.value| ==>
              var c := DuePage(t, deck, limit, now)[i];
              c in t.cards && r.value[i] == ToCardDto(c, t.cards[c]) && r.value[i].deckId == deck
  {
    if deck !in t.decks then Err(NoSuchElement)
    else
      var page := DuePage(t, deck, limit, now);
      Ok(seq(|page|, i requires 0 <= i < |page| => ToCardDto(page[i], t.cards[page[i]])))
  }

  /** When every due card fits in the page, the page holds all of them. */
  lemma {:induction false} SmallDeckListsAllDue(t: Tables, deck: DeckId, limit: int, now: Instant)
    requires |Candidates(t, deck, now)| <= PageSize(limit)
    ensures forall c :: c in Candidates(t, deck, now) ==> c in DuePage(t, deck, limit, now)
  {
    var ids := Candidates(t, deck, now);
    var page := DuePage(t, deck, limit, now);
    assert |page| == |ids|;
    var pageSet := set i | 0 <= i < |page| :: page[i];
    assert pageSet <= ids;
    DistinctSeqCard(page);
    SameSizeSubset(pageSet, ids);
    forall c | c in ids
      ensures c in page
    {
      assert c in pageSet;
    }
  }

  lemma {:induction false} SameSizeSubset(a: set<CardId>, b: set<CardId>)
    requires a <= b && |a| == |b|
    ensures a == b
  {
    assert b == a + (b - a);
    assert |b - a| == 0;
  }

  lemma {:induction false} DistinctSeqCard(s: seq<CardId>)
    requires forall i, j :: 0 <= i < j < |s| ==> s[i] != s[j]
    ensures |set i | 0 <= i < |s| :: s[i]| == |s|
    decreases |s|
  {
    if s != [] {
      var rest := s[..|s| - 1];
      DistinctSeqCard(rest);
      var all := set i | 0 <= i < |s| :: s[i];
      var front := set i | 0 <= i < |rest| :: rest[i];
      assert all == front + {s[|s| - 1]};
      assert s[|s| - 1] !in front;
    }
  }
}
