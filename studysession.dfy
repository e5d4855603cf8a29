/** The study session both copies of the study logic keep: a shuffled deck, a
    cursor into it, whether the current card shows its back, whether the run
    is over, and which cards are being reviewed. The transitions here are the
    guarded steps `nextCard`, `previousCard` and `flipCard` share in
    `useStudyMode` and in `FlashcardApp`, and the reset that starts a run. */
module StudySession {
  import opened CardTypes
  import opened Utils

  /** `'all' | 'starred'`. */
  datatype ReviewMode = All | Starred

  datatype Deck = Deck(
    cards: seq<Card>,
    cursor: nat,
    flipped: bool,
    finished: bool,
    mode: ReviewMode)

  /** The view reads `cards[cursor]` without a check: the cursor names a card
      whenever there is one, and is 0 for an empty deck. */
  predicate CursorInBounds(d: Deck) {
    d.cursor == 0 || d.cursor < |d.cards|
  }

  /** A new run over `cards`, shuffled with the draws `random`: first card,
      front side, not finished. */
  function Reset(cards: seq<Card>, random: seq<real>, mode: ReviewMode): (r: Deck)
    requires |cards| <= |random| + 1 && ValidDraws(random)
    ensures |r.cards| == |cards| && multiset(r.cards) == multiset(cards)
    ensures CursorInBounds(r) && r.cursor == 0
    ensures !r.flipped && !r.finished && r.mode == mode
  {
    ShuffledPermutes(cards, random);
    Deck(Shuffled(cards, random), 0, false, false, mode)
  }

  /** `nextCard`: move on when a later card exists, otherwise finish. The
      cursor never wraps around and never leaves the deck. */
  function Next(d: Deck): (r: Deck)
    ensures r.cards == d.cards && r.mode == d.mode
    ensures CursorInBounds(d) ==> CursorInBounds(r)
    ensures d.cursor + 1 < |d.cards| ==> r.cursor == d.cursor + 1 && !r.flipped && r.finished == d.finished
    ensures d.cursor + 1 >= |d.cards| ==> r.cursor == d.cursor && r.flipped == d.flipped && r.finished
  {
    if d.cursor < |d.cards| - 1 then d.(cursor := d.cursor + 1, flipped := false)
    else d.(finished := true)
  }

  /** `previousCard`: step back unless at the first card; the finished flag
      is never touched. */
  function Previous(d: Deck): (r: Deck)
    ensures r.cards == d.cards && r.mode == d.mode && r.finished == d.finished
    ensures CursorInBounds(d) ==> CursorInBounds(r)
    ensures d.cursor == 0 ==> r == d
    ensures d.cursor > 0 ==> r.cursor == d.cursor - 1 && !r.flipped
  {
    if d.cursor > 0 then d.(cursor := d.cursor - 1, flipped := false)
    else d
  }

  /** `flipCard`: turn the current card over. */
  function Flip(d: Deck): (r: Deck)
    ensures r.flipped != d.flipped
    ensures r.(flipped := d.flipped) == d
  {
    d.(flipped := !d.flipped)
  }

  /** Two flips restore the deck. */
  lemma FlipTwice(d: Deck)
    ensures Flip(Flip(d)) == d
  {
  }

  /** Once the run is over at the last card, `nextCard` changes nothing. */
  lemma NextWhenFinished(d: Deck)
    requires d.finished && d.cursor + 1 >= |d.cards|
    ensures Next(d) == d
  {
  }

  /** Previous after a move forward returns to the same card. */
  lemma PreviousUndoesNext(d: Deck)
    requires d.cursor + 1 < |d.cards|
    ensures Previous(Next(d)) == d.(flipped := false)
  {
  }

  /** `k` presses of the next button. */
  function NextTimes(d: Deck, k: nat): (r: Deck)
    ensures r.cards == d.cards && r.mode == d.mode
    decreases k
  {
    if k == 0 then d else Next(NextTimes(d, k - 1))
  }

  /** From card `c` of an unfinished run over `n` cards, `k` presses of next
      reach card `min(c + k, n - 1)`, and the run is over exactly when the
      presses go past the last card. */
  lemma {:induction false} NextWalk(d: Deck, k: nat)
    requires !d.finished && d.cursor < |d.cards|
    ensures NextTimes(d, k).cursor == (if d.cursor + k < |d.cards| then d.cursor + k else |d.cards| - 1)
    ensures NextTimes(d, k).finished <==> d.cursor + k >= |d.cards|
    decreases k
  {
    if k > 0 {
      NextWalk(d, k - 1);
    }
  }
}
