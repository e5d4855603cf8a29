/** The flashcard record as the generation route builds it, and the partial
    record `updateFlashcard` merges into a saved card. */
module CardTypes {
  import opened Wrappers

  /** One flashcard. `id` is the decimal rendering of a clock reading. */
  datatype Card = Card(
    id: string,
    word: string,
    lexicalItem: string,
    originalSentence: string,
    simpleDefinition: string,
    collocations: seq<string>,
    contextSentence: string,
    illustration: string,
    isStarred: bool)

  /** `Partial<Flashcard>`: a field is present when it is `Some`. */
  datatype CardPatch = CardPatch(
    id: Option<string>,
    word: Option<string>,
    lexicalItem: Option<string>,
    originalSentence: Option<string>,
    simpleDefinition: Option<string>,
    collocations: Option<seq<string>>,
    contextSentence: Option<string>,
    illustration: Option<string>,
    isStarred: Option<bool>)

  /** The patch that supplies only `isStarred`. */
  function StarPatch(starred: bool): CardPatch {
    CardPatch(None, None, None, None, None, None, None, None, Some(starred))
  }

  /** `{ ...card, ...patch }`: every supplied field replaces the card's. */
  function ApplyPatch(card: Card, patch: CardPatch): (r: Card)
    ensures patch == CardPatch(None, None, None, None, None, None, None, None, None) ==> r == card
    ensures patch.id.Some? ==> r.id == patch.id.value
    ensures patch.id.None? ==> r.id == card.id
    ensures patch.word.Some? ==> r.word == patch.word.value
    ensures patch.word.None? ==> r.word == card.word
    ensures patch.lexicalItem.Some? ==> r.lexicalItem == patch.lexicalItem.value
    ensures patch.lexicalItem.None? ==> r.lexicalItem == card.lexicalItem
    ensures patch.originalSentence.Some? ==> r.originalSentence == patch.originalSentence.value
    ensures patch.originalSentence.None? ==> r.originalSentence == card.originalSentence
    ensures patch.simpleDefinition.Some? ==> r.simpleDefinition == patch.simpleDefinition.value
    ensures patch.simpleDefinition.None? ==> r.simpleDefinition == card.simpleDefinition
    ensures patch.collocations.Some? ==> r.collocations == patch.collocations.value
    ensures patch.collocations.None? ==> r.collocations == card.collocations
    ensures patch.contextSentence.Some? ==> r.contextSentence == patch.contextSentence.value
    ensures patch.contextSentence.None? ==> r.contextSentence == card.contextSentence
    ensures patch.illustration.Some? ==> r.illustration == patch.illustration.value
    ensures patch.illustration.None? ==> r.illustration == card.illustration
    ensures patch.isStarred.Some? ==> r.isStarred == patch.isStarred.value
    ensures patch.isStarred.None? ==> r.isStarred == card.isStarred
  {
    Card(
      patch.id.GetOr(card.id),
      patch.word.GetOr(card.word),
      patch.lexicalItem.GetOr(card.lexicalItem),
      patch.originalSentence.GetOr(card.originalSentence),
      patch.simpleDefinition.GetOr(card.simpleDefinition),
      patch.collocations.GetOr(card.collocations),
      patch.contextSentence.GetOr(card.contextSentence),
      patch.illustration.GetOr(card.illustration),
      patch.isStarred.GetOr(card.isStarred))
  }

  /** Merging a patch twice has the effect of merging it once. */
  lemma ApplyPatchIdempotent(card: Card, patch: CardPatch)
    ensures ApplyPatch(ApplyPatch(card, patch), patch) == ApplyPatch(card, patch)
  {
  }

  /** A star patch changes the star flag and nothing else. */
  lemma StarPatchOnlyFlag(card: Card, starred: bool)
    ensures ApplyPatch(card, StarPatch(starred)) == card.(isStarred := starred)
  {
  }

  /** `card => card.isStarred`, the filter of the starred-card reviews. */
  predicate IsStarred(card: Card) {
    card.isStarred
  }

  /** Some card of `cards` has identifier `id`. */
  predicate HasId(cards: seq<Card>, id: string) {
    exists c <- cards :: c.id == id
  }

  /** No two cards of `cards` share an identifier. */
  predicate UniqueIds(cards: seq<Card>) {
    forall i, j :: 0 <= i < j < |cards| ==> cards[i].id != cards[j].id
  }

  /** `cards[k]` is the first card of `cards` with identifier `id`. */
  predicate FirstWithId(cards: seq<Card>, id: string, k: int) {
    0 <= k < |cards| && cards[k].id == id && forall j :: 0 <= j < k ==> cards[j].id != id
  }

  /** `cards.find(c => c.id === id)`: the first card with identifier `id`. */
  function Find(cards: seq<Card>, id: string): (r: Option<Card>)
    ensures r.None? <==> !HasId(cards, id)
    ensures r.Some? ==> exists k :: 0 <= k < |cards| && FirstWithId(cards, id, k) && cards[k] == r.value
  {
    if |cards| == 0 then None
    else if cards[0].id == id then
      assert FirstWithId(cards, id, 0);
      Some(cards[0])
    else
      var r := Find(cards[1..], id);
      assert HasId(cards, id) <==> HasId(cards[1..], id) by {
        assert forall c <- cards[1..] :: c in cards;
        assert forall c <- cards :: c == cards[0] || c in cards[1..];
      }
      if r.Some? then
        ghost var k :| 0 <= k < |cards[1..]| && FirstWithId(cards[1..], id, k) && cards[1..][k] == r.value;
        assert FirstWithId(cards, id, k + 1) by {
          forall j | 0 <= j < k + 1 ensures cards[j].id != id {
            if j > 0 {
              assert cards[j] == cards[1..][j - 1];
            }
          }
        }
        assert cards[k + 1] == r.value;
        r
      else r
  }

  /** The identifiers of `cards`, in order. */
  function Ids(cards: seq<Card>): (r: seq<string>)
    ensures |r| == |cards|
    ensures forall k :: 0 <= k < |cards| ==> r[k] == cards[k].id
  {
    seq(|cards|, k requires 0 <= k < |cards| => cards[k].id)
  }
}
