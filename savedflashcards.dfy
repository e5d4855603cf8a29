/** The saved-card collection of the `useFlashcards` hook: one list that each
    operation replaces with a transformed copy. */
module SavedFlashcards {
  import opened Wrappers
  import opened SeqFilter
  import opened CardTypes

  /** `prev.filter(flashcard => flashcard.id !== id)`. */
  function WithoutId(cards: seq<Card>, id: string): (r: seq<Card>)
    ensures forall c <- r :: c in cards && c.id != id
    ensures forall c <- cards :: c.id != id ==> c in r
    ensures !HasId(r, id)
  {
    Filter(cards, (c: Card) => c.id != id)
  }

  /** Deleting keeps the survivors in their relative order. */
  lemma DeleteKeepsOrder(a: seq<Card>, b: seq<Card>, id: string)
    ensures WithoutId(a + b, id) == WithoutId(a, id) + WithoutId(b, id)
  {
    FilterAppend(a, b, (c: Card) => c.id != id);
  }

  /** Deleting an identifier that no card has changes nothing. */
  lemma DeleteAbsentId(cards: seq<Card>, id: string)
    requires !HasId(cards, id)
    ensures WithoutId(cards, id) == cards
  {
    FilterKeepsAll(cards, (c: Card) => c.id != id);
  }

  /** `prev.map(card => card.id === id ? { ...card, ...updates } : card)`. */
  function UpdatedById(cards: seq<Card>, id: string, patch: CardPatch): (r: seq<Card>)
    ensures |r| == |cards|
    ensures forall k :: 0 <= k < |cards| && cards[k].id != id ==> r[k] == cards[k]
    ensures forall k :: 0 <= k < |cards| && cards[k].id == id ==> r[k] == ApplyPatch(cards[k], patch)
  {
    seq(|cards|, k requires 0 <= k < |cards| => if cards[k].id == id then ApplyPatch(cards[k], patch) else cards[k])
  }

  /** The flag `starCard` writes: the negation of the first matching card's
      flag, and `!undefined`, that is true, when no card matches. */
  function NewStarFlag(cards: seq<Card>, id: string): (r: bool)
    ensures HasId(cards, id) ==> exists k :: FirstWithId(cards, id, k) && r == !cards[k].isStarred
    ensures !HasId(cards, id) ==> r
  {
    match Find(cards, id)
    case Some(c) => !c.isStarred
    case None => true
  }

  /** `starCard(id)`: every card with identifier `id` gets the negated flag of
      the first such card; all other cards and all other fields stay. */
  function WithStarToggled(cards: seq<Card>, id: string): (r: seq<Card>)
    ensures |r| == |cards| && Ids(r) == Ids(cards)
    ensures forall k :: 0 <= k < |cards| && cards[k].id == id ==> r[k] == cards[k].(isStarred := NewStarFlag(cards, id))
    ensures forall k :: 0 <= k < |cards| && cards[k].id != id ==> r[k] == cards[k]
    ensures !HasId(cards, id) ==> r == cards
  {
    var r := UpdatedById(cards, id, StarPatch(NewStarFlag(cards, id)));
    assert forall k :: 0 <= k < |cards| ==> r[k].id == cards[k].id;
    assert !HasId(cards, id) ==> r == cards by {
      if !HasId(cards, id) {
        assert forall k :: 0 <= k < |cards| ==> cards[k].id != id by {
          forall k | 0 <= k < |cards| ensures cards[k].id != id {
            assert cards[k] in cards;
          }
        }
      }
    }
    r
  }

  /** With unique identifiers, `find` returns the one card with the identifier. */
  lemma FindUnique(cards: seq<Card>, id: string, k: nat)
    requires UniqueIds(cards) && k < |cards| && cards[k].id == id
    ensures Find(cards, id) == Some(cards[k])
  {
    assert cards[k] in cards;
    var r := Find(cards, id);
    var m :| 0 <= m < |cards| && FirstWithId(cards, id, m) && cards[m] == r.value;
    assert m == k;
  }

  /** With unique identifiers, starring toggles exactly the one matching card
      and keeps the identifiers unique. */
  lemma StarUnique(cards: seq<Card>, id: string, k: nat)
    requires UniqueIds(cards) && k < |cards| && cards[k].id == id
    ensures var r := WithStarToggled(cards, id);
            && UniqueIds(r)
            && r == cards[k := cards[k].(isStarred := !cards[k].isStarred)]
  {
    FindUnique(cards, id, k);
    var r := WithStarToggled(cards, id);
    assert Ids(r) == Ids(cards);
    forall i, j | 0 <= i < j < |r| ensures r[i].id != r[j].id {
      assert Ids(r)[i] == Ids(cards)[i] && Ids(r)[j] == Ids(cards)[j];
    }
    forall j | 0 <= j < |cards| && j != k ensures r[j] == cards[j] {
      assert cards[j].id != id;
    }
  }

  /** With unique identifiers, starring the same card twice restores the list. */
  lemma StarCardTwice(cards: seq<Card>, id: string)
    requires UniqueIds(cards)
    ensures WithStarToggled(WithStarToggled(cards, id), id) == cards
  {
    if HasId(cards, id) {
      var c :| c in cards && c.id == id;
      var k :| 0 <= k < |cards| && cards[k] == c;
      StarUnique(cards, id, k);
      var once := WithStarToggled(cards, id);
      StarUnique(once, id, k);
    }
  }

  /** `useFlashcards`: the saved list, starting empty. */
  class FlashcardStore {
    var savedFlashcards: seq<Card>

    constructor ()
      ensures savedFlashcards == []
    {
      savedFlashcards := [];
    }

    /** `saveFlashcard`: append at the end. */
    method SaveFlashcard(flashcard: Card)
      modifies this
      ensures savedFlashcards == old(savedFlashcards) + [flashcard]
    {
      savedFlashcards := savedFlashcards + [flashcard];
    }

    /** `deleteFlashcard`: drop every card with identifier `id`. */
    method DeleteFlashcard(id: string)
      modifies this
      ensures savedFlashcards == WithoutId(old(savedFlashcards), id)
    {
      savedFlashcards := WithoutId(savedFlashcards, id);
    }

    /** `updateFlashcard`: merge `updates` into every card with identifier `id`. */
    method UpdateFlashcard(id: string, updates: CardPatch)
      modifies this
      ensures savedFlashcards == UpdatedById(old(savedFlashcards), id, updates)
    {
      savedFlashcards := UpdatedById(savedFlashcards, id, updates);
    }

    /** `starCard`: toggle the star of the card with identifier `id`. */
    method StarCard(id: string)
      modifies this
      ensures savedFlashcards == WithStarToggled(old(savedFlashcards), id)
    {
      UpdateFlashcard(id, StarPatch(NewStarFlag(savedFlashcards, id)));
    }
  }
}
