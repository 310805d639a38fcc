/** The first backend generation's scheduler: each flashcard has a level that
    indexes a fixed table of review intervals. Remembering a card moves it up
    one level, to at most the last; forgetting it sends it back to level 0.
    The level is a Java int, so level + 1 wraps around at 2^31 - 1, and an
    index outside the table throws. Dates are day numbers. */
module LevelLadder {

  import opened Common
  import opened SrsRule

  /** int[] intervals = { 0, 1, 3, 7, 30 }: days until the next review, by
      level. */
  const INTERVALS: seq<int> := [0, 1, 3, 7, 30]
  const TOP_LEVEL: int := 4

  /** A stored flashcard without its key. */
  datatype FlashcardRow = FlashcardRow(
    question: string,
    answer: string,
    topic: string,
    collection: string,
    level: int,
    nextReviewDate: Option<Day>)

  /** The level after an answer: Math.min(level + 1, 4) in int arithmetic
      when remembered, 0 when forgotten. */
  function NextLevel(level: int, remembered: bool): (r: int)
    ensures !remembered ==> r == 0
    ensures remembered && 0 <= level < TOP_LEVEL ==> r == level + 1
    ensures remembered && TOP_LEVEL <= level <= INT_MAX - 1 ==> r == TOP_LEVEL
    ensures remembered && level == INT_MAX ==> r == INT_MIN
    ensures r <= TOP_LEVEL
  {
    if remembered then Min(IntValue(level + 1), TOP_LEVEL) else 0
  }

  /** updateLearningProgress on the stored card, at date today: the new level
      and the next review date today + intervals[level], or the exception
      the table lookup throws for a level outside it. */
  function Progress(card: FlashcardRow, remembered: bool, today: Day): (r: Result<FlashcardRow>)
    ensures r.Err? <==> !(0 <= NextLevel(card.level, remembered) <= TOP_LEVEL)
    ensures r.Err? ==> r.error == IndexOutOfBounds
    ensures r.Ok? ==> && r.value == card.(level := r.value.level, nextReviewDate := r.value.nextReviewDate)
                      && r.value.level == NextLevel(card.level, remembered)
                      && r.value.nextReviewDate == Some(today + INTERVALS[r.value.level])
  {
    var level := NextLevel(card.level, remembered);
    if 0 <= level <= TOP_LEVEL then Ok(card.(level := level, nextReviewDate := Some(today + INTERVALS[level])))
    else Err(IndexOutOfBounds)
  }

  /** A card whose level is on the ladder stays on it, so the lookup never
      fails; remembering climbs one level up to the top, forgetting restarts
      at level 0 with a review the same day. */
  lemma {:induction false} LevelStaysOnLadder(card: FlashcardRow, remembered: bool, today: Day)
    requires 0 <= card.level <= TOP_LEVEL
    ensures Progress(card, remembered, today).Ok?
    ensures 0 <= Progress(card, remembered, today).value.level <= TOP_LEVEL
    ensures remembered ==> Progress(card, remembered, today).value.level == Min(card.level + 1, TOP_LEVEL)
    ensures !remembered ==> Progress(card, remembered, today).value.nextReviewDate == Some(today)
  {
    assert IntValue(card.level + 1) == card.level + 1;
  }

  /** Exactly the ints below -1, and the largest int (whose successor wraps
      to the smallest), make a remembered answer throw; a forgotten answer
      never throws. */
  lemma {:induction false} OutOfBoundsExactly(card: FlashcardRow, remembered: bool, today: Day)
    requires INT_MIN <= card.level <= INT_MAX
    ensures Progress(card, remembered, today).Err? <==> remembered && (card.level < -1 || card.level == INT_MAX)
  {
    if remembered && card.level < INT_MAX {
      assert IntValue(card.level + 1) == card.level + 1;
    }
  }

  /** The answers of a run, on the same day. */
  function Replay(card: FlashcardRow, answers: seq<bool>, today: Day): Result<FlashcardRow>
    decreases |answers|
  {
    if answers == [] then Ok(card)
    else
      var r := Progress(card, answers[0], today);
      if r.Err? then r else Replay(r.value, answers[1..], today)
  }

  /** From level 0, k remembered answers in a row reach level min(k, 4), and
      the next review is the matching number of days away. */
  lemma {:induction false} ClimbTheLadder(card: FlashcardRow, k: nat, today: Day)
    requires 0 <= card.level <= TOP_LEVEL
    ensures Replay(card, seq(k, _ => true), today).Ok?
    ensures Replay(card, seq(k, _ => true), today).value.level == Min(card.level + k, TOP_LEVEL)
    ensures k > 0 ==> Replay(card, seq(k, _ => true), today).value.nextReviewDate
                      == Some(today + INTERVALS[Min(card.level + k, TOP_LEVEL)])
    decreases k
  {
    if k > 0 {
      LevelStaysOnLadder(card, true, today);
      var next := Progress(card, true, today).value;
      assert seq(k, _ => true)[1..] == seq(k - 1, _ => true);
      ClimbTheLadder(next, k - 1, today);
      if k == 1 {
        assert Replay(card, seq(k, _ => true), today) == Ok(next);
      }
    }
  }

  /** The Flashcard entity, with the setters the service uses. */
  class Flashcard {
    var question: string
    var answer: string
    var topic: string
    var collection: string
    var level: int
    var nextReviewDate: Option<Day>

    function Row(): (r: FlashcardRow)
      reads this
      ensures r.level == level && r.nextReviewDate == nextReviewDate
      ensures r.question == question && r.answer == answer && r.topic == topic && r.collection == collection
    {
      FlashcardRow(question, answer, topic, collection, level, nextReviewDate)
    }

    constructor Load(row: FlashcardRow)
      ensures Row() == row
    {
      question := row.question;
      answer := row.answer;
      topic := row.topic;
      collection := row.collection;
      level := row.level;
      nextReviewDate := row.nextReviewDate;
    }
  }

  /** The flashcard service over its repository, a map from id to card. */
  class FlashcardService {
    var cards: map<nat, FlashcardRow>

    constructor(cards: map<nat, FlashcardRow>)
      ensures this.cards == cards
    {
      this.cards := cards;
    }

    /** getById. */
    function GetById(id: nat): (r: Result<FlashcardRow>)
      reads this
      ensures r.Err? <==> id !in cards
      ensures r.Err? ==> r.error == NoSuchElement
      ensures r.Ok? ==> r.value == cards[id]
    {
      if id in cards then Ok(cards[id]) else Err(NoSuchElement)
    }

    /** delete: the removed card, or nothing when there was none; no other
        card is touched. */
    method Delete(id: nat) returns (r: Option<FlashcardRow>)
      modifies this
      ensures id in old(cards) ==> r == Some(old(cards)[id])
      ensures id !in old(cards) ==> r.None?
      ensures cards == old(cards) - {id}
      ensures forall k :: k in old(cards) && k != id ==> k in cards && cards[k] == old(cards)[k]
    {
      if id in cards {
        r := Some(cards[id]);
        cards := cards - {id};
      } else {
        r := None;
      }
    }

    /** updateLearningProgress at date today. An unknown id throws; an
        out-of-range level throws before the card is saved, so the stored
        card is unchanged in both cases. Otherwise the card is saved with its
        new level and next review date. */
    method UpdateLearningProgress(id: nat, remembered: bool, today: Day) returns (r: Result<FlashcardRow>)
      modifies this
      ensures id !in old(cards) ==> r == Err(NoSuchElement) && cards == old(cards)
      ensures id in old(cards) ==> r == Progress(old(cards)[id], remembered, today)
      ensures id in old(cards) && r.Ok? ==> cards == old(cards)[id := r.value]
      ensures r.Err? ==> cards == old(cards)
    {
      if id !in cards {
        return Err(NoSuchElement);
      }
      var card := new Flashcard.Load(cards[id]);
      if remembered {
        card.level := Min(IntValue(card.level + 1), |INTERVALS| - 1);
      } else {
        card.level := 0;
      }
      if !(0 <= card.level < |INTERVALS|) {
        return Err(IndexOutOfBounds);
      }
      card.nextReviewDate := Some(today + INTERVALS[card.level]);
      cards := cards[id := card.Row()];
      r := Ok(card.Row());
    }
  }
}
