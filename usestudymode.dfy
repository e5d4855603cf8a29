/** `useStudyMode`: the study session as a hook over the shared saved-card
    store. Each callback is one atomic transition of the hook's state; the
    sync effect, which React runs after the saved list or the study flag
    changes, is the separate method `SyncWithSaved`. */
module UseStudyMode {
  import opened Wrappers
  import opened SeqFilter
  import opened CardTypes
  import opened SavedFlashcards
  import opened Utils
  import opened StudySession

  /** The message `alert` shows when no saved card is starred. */
  const NoStarredCardsAlert: string :=
    "No cards have been starred. Please star some cards before reviewing tough terms."

  /** The sync effect's `map`: each deck card is replaced by the first saved
      card with its identifier, or kept when the saved list has none. */
  function Synced(deck: seq<Card>, saved: seq<Card>): (r: seq<Card>)
    ensures |r| == |deck| && Ids(r) == Ids(deck)
    ensures forall k :: 0 <= k < |deck| && HasId(saved, deck[k].id) ==> r[k] in saved
    ensures forall k :: 0 <= k < |deck| && HasId(saved, deck[k].id) ==> Find(saved, deck[k].id) == Some(r[k])
    ensures forall k :: 0 <= k < |deck| && !HasId(saved, deck[k].id) ==> r[k] == deck[k]
  {
    seq(|deck|, k requires 0 <= k < |deck| => Find(saved, deck[k].id).GetOr(deck[k]))
  }

  /** Syncing against the same saved list a second time changes nothing. */
  lemma SyncedIdempotent(deck: seq<Card>, saved: seq<Card>)
    ensures Synced(Synced(deck, saved), saved) == Synced(deck, saved)
  {
    var once := Synced(deck, saved);
    forall k | 0 <= k < |deck|
      ensures Synced(once, saved)[k] == once[k]
    {
      assert once[k].id == deck[k].id by {
        assert Ids(once)[k] == Ids(deck)[k];
      }
    }
  }

  /** The hook's star path: starring the card under the cursor by identifier,
      then syncing, flips that card's flag in the deck and keeps every saved
      card, when identifiers are unique and the card is a saved one. */
  lemma StarThenSync(deck: seq<Card>, saved: seq<Card>, k: nat)
    requires UniqueIds(saved) && k < |deck| && deck[k] in saved
    ensures var s := WithStarToggled(saved, deck[k].id);
            && Ids(s) == Ids(saved)
            && Synced(deck, s)[k] == deck[k].(isStarred := !deck[k].isStarred)
  {
    var id := deck[k].id;
    var m :| 0 <= m < |saved| && saved[m] == deck[k];
    StarUnique(saved, id, m);
    var s := WithStarToggled(saved, id);
    FindUnique(s, id, m);
    assert HasId(saved, id);
  }

  class StudyMode {
    /** The saved-card store the hook reads from the context. */
    const store: FlashcardStore
    var isStudyMode: bool
    var shuffledFlashcards: seq<Card>
    var currentCardIndex: nat
    var isFlipped: bool
    var isFinished: bool
    var reviewMode: ReviewMode

    /** The session fields as one value. */
    function Session(): Deck
      reads this
    {
      Deck(shuffledFlashcards, currentCardIndex, isFlipped, isFinished, reviewMode)
    }

    /** The hook's initial state: out of study mode, with an empty deck. */
    constructor (context: FlashcardStore)
      ensures store == context
      ensures !isStudyMode && Session() == Deck([], 0, false, false, All)
    {
      store := context;
      isStudyMode := false;
      shuffledFlashcards := [];
      currentCardIndex := 0;
      isFlipped := false;
      isFinished := false;
      reviewMode := All;
    }

    /** The sync effect: in study mode, refresh each deck card from the saved
        list; the deck keeps its length and its order of identifiers. */
    method SyncWithSaved()
      modifies this`shuffledFlashcards
      ensures isStudyMode ==> shuffledFlashcards == Synced(old(shuffledFlashcards), store.savedFlashcards)
      ensures !isStudyMode ==> shuffledFlashcards == old(shuffledFlashcards)
    {
      if isStudyMode {
        shuffledFlashcards := Synced(shuffledFlashcards, store.savedFlashcards);
      }
    }

    /** `startStudyMode`: a shuffled run over all saved cards. */
    method StartStudyMode(random: seq<real>)
      requires |store.savedFlashcards| <= |random| + 1 && ValidDraws(random)
      modifies this
      ensures isStudyMode
      ensures Session() == Reset(store.savedFlashcards, random, All)
    {
      shuffledFlashcards := Shuffled(store.savedFlashcards, random);
      currentCardIndex := 0;
      isFlipped := false;
      isFinished := false;
      isStudyMode := true;
      reviewMode := All;
    }

    /** `nextCard`. */
    method NextCard()
      modifies this
      ensures isStudyMode == old(isStudyMode)
      ensures Session() == Next(old(Session()))
    {
      if currentCardIndex < |shuffledFlashcards| - 1 {
        currentCardIndex := currentCardIndex + 1;
        isFlipped := false;
      } else {
        isFinished := true;
      }
    }

    /** `previousCard`. */
    method PreviousCard()
      modifies this
      ensures isStudyMode == old(isStudyMode)
      ensures Session() == Previous(old(Session()))
    {
      if currentCardIndex > 0 {
        currentCardIndex := currentCardIndex - 1;
        isFlipped := false;
      }
    }

    /** `flipCard`. */
    method FlipCard()
      modifies this
      ensures isStudyMode == old(isStudyMode)
      ensures Session() == Flip(old(Session()))
    {
      isFlipped := !isFlipped;
    }

    /** `restartStudy`: a new run over all saved cards, back in mode `'all'`. */
    method RestartStudy(random: seq<real>)
      requires |store.savedFlashcards| <= |random| + 1 && ValidDraws(random)
      modifies this
      ensures isStudyMode == old(isStudyMode)
      ensures Session() == Reset(store.savedFlashcards, random, All)
    {
      shuffledFlashcards := Shuffled(store.savedFlashcards, random);
      currentCardIndex := 0;
      isFlipped := false;
      isFinished := false;
      reviewMode := All;
    }

    /** `reviewToughTerms`: a run over the starred saved cards; with none,
        the alert message comes back and nothing changes. */
    method ReviewToughTerms(random: seq<real>) returns (alert: Option<string>)
      requires |store.savedFlashcards| <= |random| + 1 && ValidDraws(random)
      modifies this
      ensures isStudyMode == old(isStudyMode)
      ensures var starred := Filter(store.savedFlashcards, IsStarred);
              && (|starred| == 0 ==> alert == Some(NoStarredCardsAlert) && Session() == old(Session()))
              && (|starred| > 0 ==> alert == None && Session() == Reset(starred, random, Starred))
    {
      var starred := Filter(store.savedFlashcards, IsStarred);
      if |starred| > 0 {
        var d := Reset(starred, random, Starred);
        shuffledFlashcards, currentCardIndex, isFlipped, isFinished, reviewMode :=
          d.cards, d.cursor, d.flipped, d.finished, d.mode;
        assert Session() == d;
        alert := None;
      } else {
        alert := Some(NoStarredCardsAlert);
      }
    }

    /** `exitStudyMode`: leave study mode; the deck, cursor, flip and mode
        stay as they were. */
    method ExitStudyMode()
      modifies this
      ensures !isStudyMode
      ensures Session() == old(Session()).(finished := false)
    {
      isStudyMode := false;
      isFinished := false;
    }

    /** `handleStarClick`: star the card whose identifier the button carries,
        through the store; a missing or empty identifier does nothing. The
        hook's own state is not touched here: the sync effect picks up the
        change. */
    method HandleStarClick(id: Option<string>)
      modifies store
      ensures id.Some? && id.value != "" ==>
                store.savedFlashcards == WithStarToggled(old(store.savedFlashcards), id.value)
      ensures !(id.Some? && id.value != "") ==> store.savedFlashcards == old(store.savedFlashcards)
    {
      if id.Some? && id.value != "" {
        store.StarCard(id.value);
      }
    }
  }
}
