# Flashcard app core in Dafny

A model of the core of a Next.js language-learning app. A learner pastes a
text, picks a word in it, and asks a completion provider to write a
flashcard for the word: a main phrase, a short definition, collocations and an
example sentence. The saved cards can then be drilled in a shuffled deck,
which can be narrowed to the starred ("tough") cards. The model covers:

- `shuffleArray` (`app/lib/utils.ts`): a Fisher-Yates shuffle of a copy of the
  input, kept as an in-place array algorithm (`Utils.ShuffleArray`) and proved
  equal to a specification function (`Utils.Shuffled`) that permutes its input.
- `useFlashcards`: the saved-card list as a class (`SavedFlashcards.FlashcardStore`)
  whose methods replace the list with transformed copies.
- `useStudyMode`: the study session as a class over the shared store
  (`UseStudyMode.StudyMode`). The deck transitions it shares with the
  component are pure functions on a `Deck` value (`StudySession`).
- `useTextDisplay`: the paragraphs of a submitted text and the view flags
  (`UseTextDisplay.TextDisplay`).
- `FlashcardApp`: the page component's own state and its handlers
  (`FlashcardAppComponent.FlashcardApp`). Each handler is one atomic state
  transition.
- The routes `POST /api/generateFlashcard`, `POST /api/generateStory` and
  `POST /api/simplifyText` as functions from the request fields and a
  completion provider to an `Exchange`. An `Exchange` holds the prompt sent,
  if any, and the response with its status and body.

Values the code takes from the environment are parameters:

- `Math.random()`: a sequence `random` of reals in `[0, 1)`, consumed in order.
- `Date.now()`: a natural number `now`.
- The provider's `generateCompletion`: a function from prompt to either the
  completion's content or what it threw (`Provider.CompletionProvider`). A
  missing content arrives as the empty string.
- `alert(...)`: returned as an `Option<string>` by the handler that calls it.

JavaScript's string operations (`split`, `join`, `trim`, the `\s` class,
case-insensitive prefix tests) are written out in `JsText`, and
`Array.prototype.filter` in `SeqFilter`.

Behaviours of the code that the model keeps as written:

- The flashcard route reads four lines of the completion.
- It neither trims the lines nor drops blank ones. An empty line among the
  first four fails the request, and a line of spaces passes.
- It splits the collocations on `", "` without trimming them, so a
  collocation may be empty or padded.
- A main phrase that is a lone quotation mark normalises to the empty
  `lexicalItem` (`GenerateFlashcard.LoneQuoteBecomesEmpty`).
- Neither the routes nor the provider retry a failed call.
- The component's restart reshuffles the saved cards and keeps the review
  mode, so a review of starred cards restarts over all saved cards while
  still marked `'starred'`. The hook's `restartStudy` resets the mode to
  `'all'`.

## Model

| member | source | states |
|---|---|---|
| JsText.Trim | app/hooks/useTextDisplay.ts:14-16 | `trim()` removes exactly a blank prefix and a blank suffix: the result is a contiguous piece of the input with no whitespace at either end, and it is empty exactly when the input is blank |
| JsText.TrimStart | app/api/simplifyText/route.ts:44 | the trailing `\s*` of the sentence pattern: the result is a suffix of the input, the part dropped is blank, and the result does not start with whitespace |
| JsText.TrimEnd | app/api/simplifyText/route.ts:39 | the end half of `trim()`: the result is a prefix of the input, the part dropped is blank, and the result does not end with whitespace |
| JsText.TrimPieces | app/api/simplifyText/route.ts:39 | trimming the start and then the end leaves a trimmed piece of the original string, and nothing exactly when the string is blank |
| JsText.TrimUntouched | app/api/simplifyText/route.ts:39 | `trim()` leaves a string without outer whitespace unchanged |
| JsText.BlankAppend | app/hooks/useTextDisplay.ts:14 | two blank strings concatenate to a blank string |
| JsText.IndexOf | app/api/generateFlashcard/route.ts:62 | the index found is the first occurrence of the separator at or after the start, or -1 when none occurs |
| JsText.Split | app/api/generateFlashcard/route.ts:62 | `split` always returns at least one piece, the empty string included |
| JsText.SplitPiecesFree | app/api/generateFlashcard/route.ts:80 | no piece of a split contains the separator |
| JsText.JoinSplit | app/api/generateFlashcard/route.ts:80 | joining the pieces of a split with the same separator rebuilds the string |
| JsText.SplitJoin | app/api/generateStory/route.ts:22-24 | splitting the join of separator-free pieces on a one-character separator gives the pieces back |
| JsText.FirstOccurrenceAcrossAppend | app/hooks/useTextDisplay.ts:16 | the first separator of `a + sep + b` is the first one of `a`, or the one just after `a` when `a` has none |
| JsText.SplitAppend | app/hooks/useTextDisplay.ts:16 | the lines of `a + "\n" + b` are the lines of `a` followed by the lines of `b` |
| JsText.JoinPrefix | app/components/FlashcardApp.tsx:50 | joining the first `n` pieces gives a prefix of joining all of them |
| JsText.JoinBlank | app/hooks/useTextDisplay.ts:14-16 | blank pieces joined by a blank separator give a blank string |
| JsText.Join | app/components/FlashcardApp.tsx:50 | `join(sep)`: no parts give the empty string, one part itself, and more parts the first, the separator and the join of the rest |
| JsText.JoinEnds | app/api/generateStory/route.ts:14 | a join opens with its first part and closes with its last, and joining no parts gives the empty string |
| JsText.StartsWithPrefix | app/api/simplifyText/route.ts:40 | a text that opens with `p + q`, ignoring case, also opens with `p` |
| JsText.TrimAfterTrimStart | app/api/simplifyText/route.ts:44 | trimming after `trimStart` is the same as trimming alone |
| JsText.DecimalString | app/api/generateFlashcard/route.ts:75 | `Date.now().toString()` is a non-empty string of decimal digits with no leading zero that denotes the clock reading |
| JsText.DecimalStringInjective | app/api/generateFlashcard/route.ts:75 | distinct clock readings give distinct card identifiers |
| SeqFilter.Filter | app/hooks/useStudyMode.ts:67 | `filter` keeps every element that passes the test and only such elements, never more often than the input holds them |
| SeqFilter.FilterAppend | app/hooks/useFlashcards.ts:14 | filtering a concatenation is the concatenation of the filtered parts |
| SeqFilter.FilterKeepsAll | app/api/generateStory/route.ts:22 | a filter that every element passes returns the list unchanged |
| SeqFilter.FilterHead | app/api/generateStory/route.ts:22 | the first element of a filtered list is the first element that passes the test |
| CardTypes.ApplyPatch | app/hooks/useFlashcards.ts:19 | `{ ...card, ...updates }`: every supplied field replaces the card's, every absent one is kept, and the empty patch changes nothing |
| CardTypes.ApplyPatchIdempotent | app/hooks/useFlashcards.ts:17-21 | merging the same update twice has the effect of merging it once |
| CardTypes.StarPatchOnlyFlag | app/hooks/useFlashcards.ts:23-25 | the update `starCard` sends changes the star flag and no other field |
| CardTypes.Find | app/hooks/useFlashcards.ts:24 | `find` returns nothing exactly when no card has the identifier, and otherwise the first card that has it |
| SavedFlashcards.NewStarFlag | app/hooks/useFlashcards.ts:24 | the flag `starCard` writes is the negation of the first matching card's flag, and true (`!undefined`) when no card matches |
| SavedFlashcards.WithoutId | app/hooks/useFlashcards.ts:13-15 | deleting keeps exactly the cards with another identifier, and none with the deleted one remains |
| SavedFlashcards.DeleteKeepsOrder | app/hooks/useFlashcards.ts:14 | deleting works card by card, so the survivors keep their relative order |
| SavedFlashcards.DeleteAbsentId | app/hooks/useFlashcards.ts:14 | deleting an identifier no card has changes nothing |
| SavedFlashcards.UpdatedById | app/hooks/useFlashcards.ts:17-21 | the list keeps its length; a card with the identifier is merged with the update and every other card is unchanged |
| SavedFlashcards.WithStarToggled | app/hooks/useFlashcards.ts:23-25 | every card with the identifier gets the negated flag of the first such card; all other cards and fields stay, and an unknown identifier changes nothing |
| SavedFlashcards.FindUnique | app/hooks/useFlashcards.ts:24 | with unique identifiers, `find` returns the one card with the identifier |
| SavedFlashcards.StarUnique | app/hooks/useFlashcards.ts:23-25 | with unique identifiers, starring negates exactly the matching card's flag and keeps the identifiers unique |
| SavedFlashcards.StarCardTwice | app/hooks/useFlashcards.ts:23-25 | with unique identifiers, starring the same identifier twice restores the list |
| SavedFlashcards.FlashcardStore.constructor | app/hooks/useFlashcards.ts:7 | the saved list starts empty |
| SavedFlashcards.FlashcardStore.SaveFlashcard | app/hooks/useFlashcards.ts:9-11 | the card is appended after the existing ones |
| SavedFlashcards.FlashcardStore.DeleteFlashcard | app/hooks/useFlashcards.ts:13-15 | the new list is the old one without the cards of that identifier |
| SavedFlashcards.FlashcardStore.UpdateFlashcard | app/hooks/useFlashcards.ts:17-21 | the new list is the old one with the update merged into the matching cards |
| SavedFlashcards.FlashcardStore.StarCard | app/hooks/useFlashcards.ts:23-25 | the new list is the old one with the matching cards' star toggled |
| Utils.Scaled | app/lib/utils.ts:22 | `r * m` for a draw `r` in `[0, 1)` lies in `[0, m)` |
| Utils.ScaledIsProduct | app/lib/utils.ts:22 | the repeated addition is the product `r * m` |
| Utils.RandomIndex | app/lib/utils.ts:22 | `Math.floor(Math.random() * (i + 1))` is an index from 0 to `i` |
| Utils.Swap | app/lib/utils.ts:24 | the destructuring swap keeps the length |
| Utils.SwapExchanges | app/lib/utils.ts:24 | the swap exchanges the two positions, leaves every other one alone and keeps the multiset of elements |
| Utils.DrawnIndices | app/lib/utils.ts:20-22 | the loop's draws select, for each position from the last down to the second, an index no larger than that position |
| Utils.ShuffleFrom | app/lib/utils.ts:20-25 | the loop's remaining steps keep the length |
| Utils.ShuffleStep | app/lib/utils.ts:20-25 | one iteration hands the rest of the work to the steps from the next lower position |
| Utils.ShuffleFromPermutes | app/lib/utils.ts:20-25 | the loop keeps the multiset of elements |
| Utils.ShuffleFromKeepsSuffix | app/lib/utils.ts:20-25 | the steps from position `i` down never touch a position above `i` |
| Utils.Shuffled | app/lib/utils.ts:15-29 | the returned list has as many elements as the input, and an input of fewer than two elements comes back unchanged |
| Utils.ShuffledPermutes | app/lib/utils.ts:15-29 | whatever `Math.random()` yields, the returned list is a permutation of the input |
| Utils.SwapInPlace | app/lib/utils.ts:24 | the destructuring swap exchanges the two array elements and changes nothing else |
| Utils.ShuffleStepInPlace | app/lib/utils.ts:21-24 | one iteration (draw, then swap) leaves exactly the work of the steps from the next lower position |
| Utils.ShuffleInPlace | app/lib/utils.ts:20-25 | the loop leaves the array holding `Shuffled` of its old contents |
| Utils.ShuffleArray | app/lib/utils.ts:15-29 | the in-place loop over the copy returns exactly `Shuffled` of the input: same length, same multiset of elements |
| StudySession.Reset | app/hooks/useStudyMode.ts:29-36 | a new run is a permutation of the source cards, at the first card, front side, not finished, in the given mode |
| StudySession.Next | app/hooks/useStudyMode.ts:38-45 | next moves to the following card and shows its front when one exists, and otherwise marks the run finished in place; the cursor stays in the deck |
| StudySession.Previous | app/hooks/useStudyMode.ts:47-52 | previous steps back and shows the front unless at the first card, where nothing changes; the finished flag is never touched |
| StudySession.Flip | app/hooks/useStudyMode.ts:54-56 | flip negates the flip flag and changes nothing else |
| StudySession.FlipTwice | app/hooks/useStudyMode.ts:54-56 | two flips restore the deck |
| StudySession.NextWhenFinished | app/hooks/useStudyMode.ts:38-45 | once finished at the last card, next changes nothing |
| StudySession.PreviousUndoesNext | app/hooks/useStudyMode.ts:38-52 | previous after a move forward returns to the same card, front side |
| StudySession.NextTimes | app/hooks/useStudyMode.ts:38-45 | repeated presses of next keep the deck and the mode |
| StudySession.NextWalk | app/hooks/useStudyMode.ts:38-45 | `k` presses of next from card `c` reach card `min(c + k, n - 1)`, and the run is finished exactly when they go past the last card |
| UseStudyMode.Synced | app/hooks/useStudyMode.ts:17-27 | the sync keeps the deck's length and identifiers; a card with a saved copy is replaced by the first saved card with its identifier, the one `find` returns, and any other card is kept |
| UseStudyMode.SyncedIdempotent | app/hooks/useStudyMode.ts:17-27 | a second sync against the same saved list changes nothing |
| UseStudyMode.StarThenSync | app/hooks/useStudyMode.ts:84-90 | starring by identifier and then syncing negates the flag of the deck card, and keeps every saved card, when identifiers are unique |
| UseStudyMode.StudyMode.constructor | app/hooks/useStudyMode.ts:9-15 | out of study mode, empty deck at card 0, front side, not finished, mode `'all'` |
| UseStudyMode.StudyMode.SyncWithSaved | app/hooks/useStudyMode.ts:17-27 | in study mode the deck becomes `Synced` with the saved list, and otherwise it is unchanged |
| UseStudyMode.StudyMode.StartStudyMode | app/hooks/useStudyMode.ts:29-36 | study mode is on and the session is a new run over all saved cards in mode `'all'` |
| UseStudyMode.StudyMode.NextCard | app/hooks/useStudyMode.ts:38-45 | the session becomes `Next` of the old one |
| UseStudyMode.StudyMode.PreviousCard | app/hooks/useStudyMode.ts:47-52 | the session becomes `Previous` of the old one |
| UseStudyMode.StudyMode.FlipCard | app/hooks/useStudyMode.ts:54-56 | the session becomes `Flip` of the old one |
| UseStudyMode.StudyMode.RestartStudy | app/hooks/useStudyMode.ts:58-64 | the session is a new run over all saved cards, back in mode `'all'` |
| UseStudyMode.StudyMode.ReviewToughTerms | app/hooks/useStudyMode.ts:66-77 | with starred saved cards, a new run over exactly those in mode `'starred'`; with none, the alert message and an unchanged session |
| UseStudyMode.StudyMode.ExitStudyMode | app/hooks/useStudyMode.ts:79-82 | study mode is off and the finished flag cleared; the deck, cursor, flip and mode stay |
| UseStudyMode.StudyMode.HandleStarClick | app/hooks/useStudyMode.ts:84-90 | a present, non-empty identifier toggles that card's star in the store; otherwise the store is unchanged |
| UseTextDisplay.Paragraphs | app/hooks/useTextDisplay.ts:16 | the paragraphs are exactly the lines of the text that are not blank, each kept no more often than it occurs among the lines |
| UseTextDisplay.ParagraphsOfNonBlank | app/hooks/useTextDisplay.ts:14-16 | a text that is not blank has at least one paragraph |
| UseTextDisplay.ParagraphsAppend | app/hooks/useTextDisplay.ts:16 | the paragraphs of two texts joined by a newline are those of the first followed by those of the second |
| UseTextDisplay.TextDisplay.constructor | app/hooks/useTextDisplay.ts:7-10 | no paragraphs, simplified view hidden, original view shown |
| UseTextDisplay.TextDisplay.HandleTextSubmit | app/hooks/useTextDisplay.ts:13-18 | blank input changes nothing; other input replaces the paragraphs with its non-empty list of paragraphs |
| UseTextDisplay.TextDisplay.HandleSimplify | app/hooks/useTextDisplay.ts:21-24 | the simplified view is shown and the original hidden |
| UseTextDisplay.TextDisplay.ToggleOriginalText | app/hooks/useTextDisplay.ts:27-29 | the original view's flag is negated |
| FlashcardAppComponent.FolderName | app/components/FlashcardApp.tsx:50 | the folder name is a prefix of the submitted text |
| FlashcardAppComponent.FolderNameTokens | app/components/FlashcardApp.tsx:50 | the folder name splits back into exactly the first four (or fewer) space-separated words of the text |
| FlashcardAppComponent.StarClick | app/components/FlashcardApp.tsx:111-120 | the copy of the deck has the card under the cursor with its flag negated and every other card unchanged; with no card under the cursor the handler throws |
| FlashcardAppComponent.StarClickInToughReviewDropsUnstarred | app/components/FlashcardApp.tsx:111-120 | in a deck of starred cards, the list written back as the saved list holds no unstarred saved card other than the one clicked |
| FlashcardAppComponent.ToughReviewStarLosesCard | app/components/FlashcardApp.tsx:111-130 | for any saved list of an unstarred card and a starred card with another identifier, reviewing the starred card and clicking its star leaves a saved list without the unstarred card |
| FlashcardAppComponent.FlashcardApp.constructor | app/components/FlashcardApp.tsx:14-30 | the component's initial state, field by field |
| FlashcardAppComponent.SubmitText | app/components/FlashcardApp.tsx:47-54 | blank input changes nothing; other input yields its paragraphs (at least one), its folder name and an empty input |
| FlashcardAppComponent.FlashcardApp.HandleTextSubmit | app/components/FlashcardApp.tsx:47-54 | the input text, paragraphs and folder name become `SubmitText` of their old values, and no other field changes |
| FlashcardAppComponent.FlashcardApp.HandleSimplify | app/components/FlashcardApp.tsx:56-59 | the simplified view is shown and the original hidden |
| FlashcardAppComponent.FlashcardApp.HandleWordClick | app/components/FlashcardApp.tsx:61-64 | the word is remembered and the dialog opened |
| FlashcardAppComponent.FlashcardApp.HandleSaveFlashcard | app/components/FlashcardApp.tsx:66-69 | the card is appended to the saved list and the dialog closed |
| FlashcardAppComponent.FlashcardApp.HandleDeleteFlashcard | app/components/FlashcardApp.tsx:71-73 | the saved list loses the cards of that identifier |
| FlashcardAppComponent.FlashcardApp.ToggleOriginalText | app/components/FlashcardApp.tsx:75-77 | the original view's flag is negated |
| FlashcardAppComponent.FlashcardApp.HandleUpdateFlashcards | app/components/FlashcardApp.tsx:79-81 | the given list becomes the saved list |
| FlashcardAppComponent.FlashcardApp.HandleContinueLearning | app/components/FlashcardApp.tsx:83-86 | the follow-up panel is shown and the deck hidden |
| FlashcardAppComponent.FlashcardApp.ReshuffleFlashcards | app/components/FlashcardApp.tsx:88-93 | the session is a new run over the given cards that keeps the review mode |
| FlashcardAppComponent.FlashcardApp.NextCard | app/components/FlashcardApp.tsx:95-102 | the session becomes `Next` of the old one |
| FlashcardAppComponent.FlashcardApp.PreviousCard | app/components/FlashcardApp.tsx:104-109 | the session becomes `Previous` of the old one |
| FlashcardAppComponent.FlashcardApp.HandleStarClick | app/components/FlashcardApp.tsx:111-120 | the handler throws exactly when no card is under the cursor, changing nothing; otherwise the deck becomes `StarClick` of the old deck and the saved list becomes that same deck |
| FlashcardAppComponent.FlashcardApp.HandleReviewToughTerms | app/components/FlashcardApp.tsx:122-130 | with starred cards in the current deck, a new run over exactly those in mode `'starred'`; with none, the alert message and an unchanged session |
| FlashcardAppComponent.FlashcardApp.LearnSavedFlashcards | app/components/FlashcardApp.tsx:203-206 | the deck view opens on a new run over the saved cards |
| FlashcardAppComponent.FlashcardApp.Restart | app/components/FlashcardApp.tsx:238 | a new run over the saved cards that keeps the review mode |
| FlashcardAppComponent.FlashcardApp.FlipCard | app/components/FlashcardApp.tsx:234 | the session becomes `Flip` of the old one |
| FlashcardAppComponent.FlashcardApp.CloseFlashcards | app/components/FlashcardApp.tsx:233 | the deck view is hidden |
| FlashcardAppComponent.FlashcardApp.CloseContinueLearning | app/components/FlashcardApp.tsx:245 | the follow-up panel is hidden |
| Provider.Rejected | app/api/generateFlashcard/route.ts:23-25 | a rejected request sends nothing to the provider and answers with the given status and an error body |
| GenerateFlashcard.Truthy | app/api/generateFlashcard/route.ts:23 | a request field counts as given when it is present and not the empty string, as JavaScript's truthiness has it for strings |
| GenerateFlashcard.FlashcardPrompt | app/api/generateFlashcard/route.ts:29-43 | the prompt text: the two inputs in brackets after their labels, then the steps line by line |
| GenerateFlashcard.FlashcardPromptInputs | app/api/generateFlashcard/route.ts:29-43 | the prompt holds the sentence and the word verbatim, each right after its label and before the closing bracket, and ends with the steps |
| GenerateFlashcard.StripQuotes | app/api/generateFlashcard/route.ts:72 | a leading quotation mark is removed exactly when there is one, and then one trailing character exactly when it is a quotation mark; nothing else is removed, so the result is the rest of the phrase between them and a phrase not quoted at either end is unchanged |
| GenerateFlashcard.StripQuotesOfQuoted | app/api/generateFlashcard/route.ts:72 | a phrase wrapped in quotation marks normalises to the phrase |
| GenerateFlashcard.LoneQuoteBecomesEmpty | app/api/generateFlashcard/route.ts:64-72 | a main phrase that is a lone quotation mark passes the check and normalises to the empty string |
| GenerateFlashcard.ParseCard | app/api/generateFlashcard/route.ts:62-84 | the parse fails, with the incomplete-data message, exactly when one of the first four lines is missing or empty; otherwise each card field is the line or input it comes from, the collocations rejoin to the third line, the id is the clock's digits, and the card is unstarred |
| GenerateFlashcard.ParseIgnoresExtraLines | app/api/generateFlashcard/route.ts:62 | lines after the fourth do not affect the card |
| GenerateFlashcard.ProviderErrorMessage | app/api/generateFlashcard/route.ts:46-51 | the message is the provider-error prefix followed by the error's own message, or by "Unknown error" for a thrown non-`Error` |
| GenerateFlashcard.Respond | app/api/generateFlashcard/route.ts:46-95 | a provider failure gives a 500 with "AI provider error: " and the message, an empty completion a 500 with the no-content message, and an unparsable completion a 500 with the incomplete-data message; status 200 exactly when the completion parses, with the parsed card as the body |
| GenerateFlashcard.GenerateFlashcard | app/api/generateFlashcard/route.ts:19-96 | missing or empty inputs are rejected with 400 before the provider is called; otherwise the prompt embeds both inputs and the answer is `Respond` to the provider's reply |
| GenerateStory.StoryPrompt | app/api/generateStory/route.ts:14 | the prompt text: the request, the phrases joined by `", "`, then the rules |
| GenerateStory.StoryPromptPhrases | app/api/generateStory/route.ts:14 | the prompt holds the joined phrases verbatim between the request and the rules |
| GenerateStory.StoryOf | app/api/generateStory/route.ts:22-24 | the title is absent exactly when every line is empty, and otherwise is a non-empty line of the completion; the story is empty when there is at most one non-empty line |
| GenerateStory.StoryTitleIsFirstLine | app/api/generateStory/route.ts:22 | the title is the first non-empty line of the completion |
| GenerateStory.StoryLines | app/api/generateStory/route.ts:22-24 | the story's lines are the non-empty completion lines after the title, in order, none of them empty |
| GenerateStory.StoryRoundTrip | app/api/generateStory/route.ts:22-24 | a completion of two or more lines, none empty, is rebuilt exactly by the title, a newline and the story |
| GenerateStory.StoryResponse | app/api/generateStory/route.ts:16-28 | status 200 exactly when the provider answered with non-empty content, with the story body; every failure is the same 500 error |
| GenerateStory.GenerateStory | app/api/generateStory/route.ts:1-29 | missing or non-array phrases are rejected with 400 before the provider is called; otherwise the prompt holds the phrases joined by commas and the answer is `StoryResponse` to the reply |
| SimplifyText.SimplifyPrompt | app/api/simplifyText/route.ts:14-26 | the prompt text: the rules, the input on a line of its own, a blank line and the closing label |
| SimplifyText.SimplifyPromptInjective | app/api/simplifyText/route.ts:14-26 | the text is spliced in verbatim between fixed rules and a fixed label, so different texts give different prompts |
| SimplifyText.WithinTransitive | app/api/simplifyText/route.ts:39-45 | a piece of a piece of a string is a piece of the string |
| SimplifyText.TrimWithin | app/api/simplifyText/route.ts:39 | a trimmed string is a piece of the string |
| SimplifyText.SuffixWithin | app/api/simplifyText/route.ts:40 | a suffix is a piece |
| SimplifyText.TrimSuffixWithin | app/api/simplifyText/route.ts:40-44 | trimming what is left after a prefix is cut off leaves a piece of the whole text |
| SimplifyText.ColonForm | app/api/simplifyText/route.ts:40 | a text opens with an introduction followed by `:` exactly when it opens with the introduction and the next character is a colon |
| SimplifyText.IntrosExclusive | app/api/simplifyText/route.ts:40 | no text opens with two different introductions of the pattern, so the order of its alternatives does not matter |
| SimplifyText.IntroLength | app/api/simplifyText/route.ts:40 | the part the first `replace` removes: none exactly when the text opens with none of the six forms of the pattern (either long phrase or `simplified text`, each with or without a colon, ignoring case), and otherwise as long as one form it opens with and no shorter than any of them, so the colon is taken whenever it is there |
| SimplifyText.IntroFormsMatched | app/api/simplifyText/route.ts:40 | the three-way choice of introduction, plus an optional colon, yields exactly the longest of the six forms the text opens with |
| SimplifyText.SentenceEnd | app/api/simplifyText/route.ts:44 | the first sentence terminator at or after the start, or the end of the text when there is none |
| SimplifyText.DropFirstSentence | app/api/simplifyText/route.ts:44 | `replace(/^[^.!?]+[.!?]\s*/, '')`: a suffix of the text; when a terminator follows at least one character, the text up to and including the first terminator is gone, only whitespace lies between it and the result, and the result starts without whitespace; otherwise the text is unchanged |
| SimplifyText.StripIntro | app/api/simplifyText/route.ts:40 | the result is the text after its longest introduction, trimmed; so it is a trimmed piece of the text, and a trimmed text without introduction is unchanged |
| SimplifyText.StripLeadSentence | app/api/simplifyText/route.ts:43-45 | the result is a trimmed piece of the text; without a lead word the text is unchanged; with one and a terminator after the first character, the result is what follows that first terminator, trimmed; with one but no such terminator, the text is unchanged |
| SimplifyText.CleanSimplified | app/api/simplifyText/route.ts:39-45 | the cleaned text is a piece of the completion with no outer whitespace, no longer than the trimmed completion |
| SimplifyText.CleanSimplifiedSteps | app/api/simplifyText/route.ts:39-45 | the cleaned text is the trimmed completion without its longest introduction, trimmed again; then, when that opens with a lead word (`here`, `this`, `following`, `below`, ignoring case) and has a terminator (`.`, `!`, `?`) after its first character, what follows the first terminator, trimmed; otherwise it is that text itself |
| SimplifyText.CleanUntouched | app/api/simplifyText/route.ts:39-45 | a completion that is trimmed and opens with neither an introduction nor a lead word comes back unchanged |
| SimplifyText.TrimStartSpace | app/api/simplifyText/route.ts:40 | `trimStart` removes one leading space from text that starts with no whitespace |
| SimplifyText.TrimLeadingSpace | app/api/simplifyText/route.ts:40 | `trim` removes one leading space from text without outer whitespace |
| SimplifyText.LabelLength | app/api/simplifyText/route.ts:40 | the label `Simplified text:` is an introduction of 16 characters |
| SimplifyText.LabelRemoved | app/api/simplifyText/route.ts:39-45 | a completion that opens with the label `Simplified text:` is cleaned to the text after it, and only one label is removed |
| SimplifyText.SentenceEndsAtStop | app/api/simplifyText/route.ts:44 | the first sentence of `sentence + stop + " " + rest` ends at `stop`, for any of the three terminators, when the sentence has none |
| SimplifyText.StartsWithLeadWord | app/api/simplifyText/route.ts:43 | the lead-word test: the text opens with `here`, `this`, `following` or `below`, ignoring case |
| SimplifyText.LeadWordHasNoIntro | app/api/simplifyText/route.ts:40-43 | a text that opens with a lead word but not with `here is a simplified version of the ` has no introduction |
| SimplifyText.DropsToRest | app/api/simplifyText/route.ts:44 | dropping the first sentence of `sentence + stop + " " + rest` leaves `rest` |
| SimplifyText.LeadSentenceRemoved | app/api/simplifyText/route.ts:39-45 | a completion that opens with a lead-word sentence ended by `.`, `!` or `?`, and not with the long introduction, is cleaned to the text after that sentence |
| SimplifyText.SimplifyResponse | app/api/simplifyText/route.ts:30-54 | status 200 exactly when the provider answered with non-empty content, with the cleaned text, itself a trimmed piece of the content; a thrown error and an empty completion are 500 errors whose details are the error's message |
| SimplifyText.SimplifyText | app/api/simplifyText/route.ts:6-55 | a missing or empty text is rejected with 400 before the provider is called; otherwise the prompt embeds the text and the answer is `SimplifyResponse` to the reply |

## Left out

- React itself is not modelled: rendering, re-render timing, batching of `setState` calls, `useCallback` dependency lists and stale closures, and the context provider. Each handler is one atomic transition of the state it writes.
- The component's keyboard listener (`app/components/FlashcardApp.tsx:32-45`) is not modelled separately. The arrow keys call the same `nextCard` and `previousCard` the buttons call.
- `flashcardToDelete` is declared in the component but never read or written by a handler, so it is not a field of the model.
- `console.log`, `console.error` and the DOM `dataset` lookup are not modelled. The dataset lookup becomes an `Option<string>` parameter, and `alert` becomes a returned message.
- Provider SDKs (`app/lib/openAIProvider.ts`, `app/lib/anthropicProvider.ts`) and the environment variable that picks one are not part of this model. A provider is a function from prompt to completion content or failure.
- Malformed request JSON, and request fields that are neither strings nor absent, are not modelled. In the story route, a phrase array with non-string elements is not modelled either: `phrases` is a list of strings or `None`.
- The flashcard route's fallback "An unexpected error occurred" for a thrown non-`Error` is not modelled. Every throw inside that route's `try` is an `Error`, so the fallback never runs.
- `Math.random()` returns a floating-point number. The model uses exact reals in `[0, 1)`, so rounding in `Math.random() * (i + 1)` is not modelled.
- Utils.ShuffleArray: the uniformity of the shuffle is not stated, because the draws are a parameter and not a distribution. The model proves a permutation that is a fixed function of the draws.
- JavaScript strings are sequences of UTF-16 code units, while Dafny strings here are sequences of characters. Surrogate pairs are treated character by character.
- `cn` in `app/lib/utils.ts` merges CSS class names for rendering only and is not modelled.
- `app/lib/types.ts` declares the card type with field names that differ from those the route builds. The model uses the fields the route and the hooks actually write.
- The prompts are modelled verbatim as strings, but nothing about the wording is proved beyond the inputs being spliced in.

## Findings

| source | as written | input that shows it | evidently intended | confidence | as-written member | corrected member |
|---|---|---|---|---|---|---|
| app/components/FlashcardApp.tsx:111-120 | the star click writes the whole current deck back as the saved list, so during a review of starred cards every unstarred saved card is lost | saved cards `a` (not starred) and `b` (starred); review tough terms, then click the star of `b`: the saved list becomes `[b]` unstarred and `a` is gone | toggle the star of the one saved card with that identifier, as `useStudyMode` does through `starCard`, and refresh the deck from the saved list | not executed | FlashcardAppComponent.ToughReviewStarLosesCard | UseStudyMode.StarThenSync |
