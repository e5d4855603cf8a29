/** `FlashcardApp`: the page component that keeps its own copy of the saved
    cards and of the study session, and the handlers that change them. Each
    handler is one atomic transition of the component's state. */
module FlashcardAppComponent {
  import opened Wrappers
  import opened JsText
  import opened SeqFilter
  import opened CardTypes
  import opened SavedFlashcards
  import opened Utils
  import opened StudySession
  import opened UseTextDisplay

  /** The message `alert` shows when no deck card is starred. */
  const NoStarredCardsAlert: string :=
    "No cards have been starred. Please star some cards before reviewing tough terms."

  /** `text.split(' ').slice(0, 4).join(' ')`: the first four space-separated
      tokens of `text`, or all of them when there are fewer. */
  function FolderName(text: string): (r: string)
    ensures |r| <= |text| && r == text[..|r|]
  {
    var tokens := Split(text, " ");
    var n := if |tokens| < 4 then |tokens| else 4;
    JoinPrefix(tokens, " ", n);
    JoinSplit(text, " ");
    Join(tokens[..n], " ")
  }

  /** The folder name splits back into exactly the first (at most four)
      tokens of the text. */
  lemma FolderNameTokens(text: string)
    ensures var tokens := Split(text, " ");
            Split(FolderName(text), " ") == tokens[..if |tokens| < 4 then |tokens| else 4]
  {
    var tokens := Split(text, " ");
    var n := if |tokens| < 4 then |tokens| else 4;
    SplitPiecesFree(text, " ");
    forall p <- tokens[..n] ensures !Contains(p, " ") {
      assert p in tokens;
    }
    SplitJoin(tokens[..n], " ");
  }

  /** `handleStarClick` on the deck: a copy of the deck whose card under the
      cursor has its flag negated. With no card under the cursor, reading
      its flag throws, shown here as `None`. */
  function StarClick(deck: seq<Card>, cursor: nat): (r: Option<seq<Card>>)
    ensures r.None? <==> cursor >= |deck|
    ensures r.Some? ==> |r.value| == |deck| && Ids(r.value) == Ids(deck)
    ensures r.Some? ==> r.value[cursor] == deck[cursor].(isStarred := !deck[cursor].isStarred)
    ensures r.Some? ==> forall k :: 0 <= k < |deck| && k != cursor ==> r.value[k] == deck[k]
  {
    if cursor < |deck| then
      var updated := deck[cursor := deck[cursor].(isStarred := !deck[cursor].isStarred)];
      assert forall k :: 0 <= k < |deck| ==> updated[k].id == deck[k].id;
      Some(updated)
    else None
  }

  /** Starring in a review of starred cards loses saved cards: the new deck
      becomes the saved list, and a saved card that is not starred (other
      than the one just clicked) is not in it. */
  lemma StarClickInToughReviewDropsUnstarred(deck: seq<Card>, cursor: nat, c: Card)
    requires cursor < |deck| && forall x <- deck :: x.isStarred
    requires !c.isStarred && c.id != deck[cursor].id
    ensures c !in StarClick(deck, cursor).value
  {
    var r := StarClick(deck, cursor).value;
    forall k | 0 <= k < |r| ensures r[k] != c {
      if k == cursor {
        assert r[k].id == Ids(r)[k] == Ids(deck)[k];
      } else {
        assert deck[k] in deck;
      }
    }
  }

  /** Two saved cards, one starred: after the review of starred cards and a
      click on the star of its only card, the saved list has lost the card
      that was never starred. */
  lemma ToughReviewStarLosesCard(a: Card, b: Card, random: seq<real>)
    requires ValidDraws(random)
    requires !a.isStarred && b.isStarred && a.id != b.id
    ensures var deck := Reset(Filter([a, b], IsStarred), random, Starred);
            var saved := StarClick(deck.cards, deck.cursor);
            saved == Some([b.(isStarred := false)]) && a !in saved.value
  {
    assert Filter([a, b], IsStarred) == [b] by {
      assert [a, b][1..] == [b] && [b][1..] == [];
    }
    var deck := Reset([b], random, Starred);
    assert deck.cards == [b];
    var saved := StarClick(deck.cards, 0);
    assert saved.value == [b.(isStarred := false)];
    StarClickInToughReviewDropsUnstarred(deck.cards, 0, a);
  }

  /** The input text, the paragraphs and the folder name. */
  datatype TextFields = TextFields(text: string, simplified: seq<string>, currentFolder: string)

  /** `handleTextSubmit`: blank input is ignored; otherwise the paragraphs
      and the folder name are stored and the input text is cleared. The
      test `trim() !== ''` is written as "not blank", which `Trim` shows to
      be the same. */
  function SubmitText(st: TextFields, submittedText: string): (r: TextFields)
    ensures IsBlank(submittedText) ==> r == st
    ensures !IsBlank(submittedText) ==> |r.text| == 0
    ensures !IsBlank(submittedText) ==> r.simplified == Paragraphs(submittedText) && |r.simplified| > 0
    ensures !IsBlank(submittedText) ==> r.currentFolder == FolderName(submittedText)
  {
    if IsBlank(submittedText) then st
    else
      ParagraphsOfNonBlank(submittedText);
      TextFields("", Paragraphs(submittedText), FolderName(submittedText))
  }

  class FlashcardApp {
    var text: string
    var simplified: seq<string>
    var showSimplified: bool
    var selectedWord: string
    var savedFlashcards: seq<Card>
    var currentFolder: string
    var showOriginal: bool
    var dialogOpen: bool
    var showFlashcards: bool
    var showContinueLearning: bool
    var shuffledFlashcards: seq<Card>
    var currentCardIndex: nat
    var isFlipped: bool
    var isFinished: bool
    var reviewMode: ReviewMode

    /** The session fields as one value. */
    function Session(): Deck
      reads this
    {
      Deck(shuffledFlashcards, currentCardIndex, isFlipped, isFinished, reviewMode)
    }

    /** The component's initial state. */
    constructor ()
      ensures text == "" && simplified == [] && !showSimplified && selectedWord == ""
      ensures savedFlashcards == [] && currentFolder == "" && showOriginal && !dialogOpen
      ensures !showFlashcards && !showContinueLearning
      ensures Session() == Deck([], 0, false, false, All)
    {
      text := "";
      simplified := [];
      showSimplified := false;
      selectedWord := "";
      savedFlashcards := [];
      currentFolder := "";
      showOriginal := true;
      dialogOpen := false;
      showFlashcards := false;
      showContinueLearning := false;
      shuffledFlashcards := [];
      currentCardIndex := 0;
      isFlipped := false;
      isFinished := false;
      reviewMode := All;
    }

    /** The fields the text submission writes, as one value. */
    function Input(): TextFields
      reads this
    {
      TextFields(text, simplified, currentFolder)
    }

    /** `handleTextSubmit`: the fields become `SubmitText` of their old values. */
    method HandleTextSubmit(submittedText: string)
      modifies this`simplified, this`currentFolder, this`text
      ensures Input() == SubmitText(old(Input()), submittedText)
    {
      var r := SubmitText(Input(), submittedText);
      text, simplified, currentFolder := r.text, r.simplified, r.currentFolder;
    }

    /** `handleSimplify`. */
    method HandleSimplify()
      modifies this`showSimplified, this`showOriginal
      ensures showSimplified && !showOriginal
    {
      showSimplified := true;
      showOriginal := false;
    }

    /** `handleWordClick`: remember the word and open the dialog. */
    method HandleWordClick(word: string)
      modifies this`selectedWord, this`dialogOpen
      ensures selectedWord == word && dialogOpen
    {
      selectedWord := word;
      dialogOpen := true;
    }

    /** `handleSaveFlashcard`: append the card and close the dialog. */
    method HandleSaveFlashcard(flashcard: Card)
      modifies this`savedFlashcards, this`dialogOpen
      ensures savedFlashcards == old(savedFlashcards) + [flashcard] && !dialogOpen
    {
      savedFlashcards := savedFlashcards + [flashcard];
      dialogOpen := false;
    }

    /** `handleDeleteFlashcard`: drop every saved card with identifier `id`. */
    method HandleDeleteFlashcard(id: string)
      modifies this`savedFlashcards
      ensures savedFlashcards == WithoutId(old(savedFlashcards), id)
    {
      savedFlashcards := WithoutId(savedFlashcards, id);
    }

    /** `toggleOriginalText`. */
    method ToggleOriginalText()
      modifies this`showOriginal
      ensures showOriginal == !old(showOriginal)
    {
      showOriginal := !showOriginal;
    }

    /** `handleUpdateFlashcards`: the given list becomes the saved list. */
    method HandleUpdateFlashcards(updatedFlashcards: seq<Card>)
      modifies this`savedFlashcards
      ensures savedFlashcards == updatedFlashcards
    {
      savedFlashcards := updatedFlashcards;
    }

    /** `handleContinueLearning`: leave the deck for the follow-up panel. */
    method HandleContinueLearning()
      modifies this`showContinueLearning, this`showFlashcards
      ensures showContinueLearning && !showFlashcards
    {
      showContinueLearning := true;
      showFlashcards := false;
    }

    /** `reshuffleFlashcards`: a new run over `cards` that keeps the review
        mode it finds. */
    method ReshuffleFlashcards(cards: seq<Card>, random: seq<real>)
      requires |cards| <= |random| + 1 && ValidDraws(random)
      modifies this`shuffledFlashcards, this`currentCardIndex, this`isFlipped, this`isFinished
      ensures Session() == Reset(cards, random, old(reviewMode))
    {
      shuffledFlashcards := Shuffled(cards, random);
      currentCardIndex := 0;
      isFlipped := false;
      isFinished := false;
    }

    /** `nextCard`. */
    method NextCard()
      modifies this`currentCardIndex, this`isFlipped, this`isFinished
      ensures Session() == Next(old(Session()))
    {
      if currentCardIndex < |shuffledFlashcards| - 1 {
        currentCardIndex := currentCardIndex + 1;
        isFlipped := false;
      } else {
        isFinished := true;
      }
    }

    /** `previousCard`. */
    method PreviousCard()
      modifies this`currentCardIndex, this`isFlipped
      ensures Session() == Previous(old(Session()))
    {
      if currentCardIndex > 0 {
        currentCardIndex := currentCardIndex - 1;
        isFlipped := false;
      }
    }

    /** `handleStarClick`: negate the flag of the card under the cursor in a
        copy of the deck, and make that copy both the deck and the saved
        list. With no card under the cursor the handler throws before any
        update, reported here as `threw`. */
    method HandleStarClick() returns (threw: bool)
      modifies this`shuffledFlashcards, this`savedFlashcards
      ensures threw <==> old(currentCardIndex) >= |old(shuffledFlashcards)|
      ensures threw ==> shuffledFlashcards == old(shuffledFlashcards) && savedFlashcards == old(savedFlashcards)
      ensures !threw ==> shuffledFlashcards == StarClick(old(shuffledFlashcards), currentCardIndex).value
      ensures !threw ==> savedFlashcards == shuffledFlashcards
    {
      if currentCardIndex >= |shuffledFlashcards| {
        return true;
      }
      var updatedFlashcards := shuffledFlashcards;
      updatedFlashcards := updatedFlashcards[currentCardIndex :=
        updatedFlashcards[currentCardIndex].(isStarred := !updatedFlashcards[currentCardIndex].isStarred)];
      shuffledFlashcards := updatedFlashcards;
      HandleUpdateFlashcards(updatedFlashcards);
      threw := false;
    }

    /** `handleReviewToughTerms`: a run over the starred cards of the current
        deck; with none, the alert message comes back and nothing changes. */
    method HandleReviewToughTerms(random: seq<real>) returns (alert: Option<string>)
      requires |shuffledFlashcards| <= |random| + 1 && ValidDraws(random)
      modifies this`shuffledFlashcards, this`currentCardIndex, this`isFlipped, this`isFinished, this`reviewMode
      ensures var starred := Filter(old(shuffledFlashcards), IsStarred);
              && (|starred| == 0 ==> alert == Some(NoStarredCardsAlert) && Session() == old(Session()))
              && (|starred| > 0 ==> alert == None && Session() == Reset(starred, random, Starred))
    {
      var starredCards := Filter(shuffledFlashcards, IsStarred);
      if |starredCards| > 0 {
        ReshuffleFlashcards(starredCards, random);
        reviewMode := Starred;
        alert := None;
      } else {
        alert := Some(NoStarredCardsAlert);
      }
    }

    /** The "Learn Saved Flashcards" button: open the deck view on a new run
        over the saved cards. */
    method LearnSavedFlashcards(random: seq<real>)
      requires |savedFlashcards| <= |random| + 1 && ValidDraws(random)
      modifies this`showFlashcards, this`shuffledFlashcards, this`currentCardIndex, this`isFlipped, this`isFinished
      ensures showFlashcards
      ensures Session() == Reset(savedFlashcards, random, old(reviewMode))
    {
      showFlashcards := true;
      ReshuffleFlashcards(savedFlashcards, random);
    }

    /** The deck view's restart: a new run over the saved cards that keeps
        the review mode, so a review of starred cards restarts as one. */
    method Restart(random: seq<real>)
      requires |savedFlashcards| <= |random| + 1 && ValidDraws(random)
      modifies this`shuffledFlashcards, this`currentCardIndex, this`isFlipped, this`isFinished
      ensures Session() == Reset(savedFlashcards, random, old(reviewMode))
    {
      ReshuffleFlashcards(savedFlashcards, random);
    }

    /** The deck view's flip. */
    method FlipCard()
      modifies this`isFlipped
      ensures Session() == Flip(old(Session()))
    {
      isFlipped := !isFlipped;
    }

    /** The deck view's close button. */
    method CloseFlashcards()
      modifies this`showFlashcards
      ensures !showFlashcards
    {
      showFlashcards := false;
    }

    /** The follow-up panel's close button. */
    method CloseContinueLearning()
      modifies this`showContinueLearning
      ensures !showContinueLearning
    {
      showContinueLearning := false;
    }
  }
}
