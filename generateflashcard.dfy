/** `POST /api/generateFlashcard`: validate the target word and its
    sentence, ask the provider for four lines, and build a flashcard from
    them. Thrown errors become status 500 with the error's message. */
module GenerateFlashcard {
  import opened Wrappers
  import opened JsText
  import opened CardTypes
  import opened Provider

  const MissingInputsError: string := "Missing targetWord or initialSentence"
  const ProviderErrorPrefix: string := "AI provider error: "
  const UnknownError: string := "Unknown error"
  const NoContentError: string := "No content generated from AI provider"
  const IncompleteDataError: string := "Incomplete data from AI provider response"
  const PlaceholderImage: string := "/images/placeholder.png"

  /** A request field is truthy: present and not the empty string. */
  predicate Truthy(field: Option<string>) {
    field.Some? && field.value != ""
  }

  /** The instructions that follow the two inputs in the prompt: its lines
      joined by newlines, long lines written in short pieces. */
  const FlashcardSteps: string := Join([
    "Follow these steps to " + "create the flashcard:",
    "1. **Main phrase**: " + "Extract the most common " + "and natural word " + "combination or " +
    "structure with the " + "target word from the " + "initial sentence. " +
    "Ensure that this phrase " + "is directly presented " + "without omissions.  ",
    "2. **Explanation**: " + "Provide the meaning of " + "the target word in up " +
    "to 5 words, making it " + "as simple as possible.  ",
    "3. **High-Frequency " + "Collocations (HFC)**: " + "Provide 3 " + "high-frequency " +
    "collocations using the " + "target word in the same " + "meaning as the " +
    "explanation, separated " + "by commas.  ",
    "4. **Contextual " + "sentence**: Create a " + "simple sentence using " +
    "the main phrase in a " + "clear and " + "easy-to-understand way.",
    "**Output format:**  ",
    "Main phrase",
    "Explanation (up to 5 " + "words)",
    "3 high-frequency " + "collocations",
    "Contextual sentence",
    "Provide the information " + "in this sequence " + "without including " + "labels like \"Main " +
    "phrase:\" or " + "\"Explanation:\". Just " + "give the direct content " +
    "in the specified order."
  ], "\n")

  /** The fixed text around the sentence and the word. */
  const PromptHead: string := "Use the following inputs:\n" + "**Initial sentence:** ["
  const PromptMiddle: string := "]  \n" + "**Target word:** ["
  const PromptTail: string := "]  \n"

  /** The prompt: both inputs in brackets, then the steps. */
  function FlashcardPrompt(initialSentence: string, targetWord: string): string {
    PromptHead + initialSentence + PromptMiddle + targetWord + (PromptTail + FlashcardSteps)
  }

  /** The prompt carries the sentence and the word verbatim, each right
      after its label, and ends with the steps. */
  lemma FlashcardPromptInputs(initialSentence: string, targetWord: string)
    ensures var r := FlashcardPrompt(initialSentence, targetWord);
            var a := |PromptHead|;
            var b := a + |initialSentence| + |PromptMiddle|;
            && b + |targetWord| <= |r|
            && r[..a] == PromptHead
            && r[a..a + |initialSentence|] == initialSentence
            && r[a + |initialSentence|..b] == PromptMiddle
            && r[b..b + |targetWord|] == targetWord
            && r[b + |targetWord|..] == PromptTail + FlashcardSteps
  {
    SplicedTwice(PromptHead, initialSentence, PromptMiddle, targetWord, PromptTail + FlashcardSteps);
  }

  /** A straight or a single quotation mark. */
  predicate IsQuote(c: char) {
    c == '"' || c == '\''
  }

  /** `s.replace(/^["']|["']$/g, '')`: one quotation mark is removed from the
      front and one from the back; a lone quotation mark is removed once. */
  function StripQuotes(s: string): (r: string)
    ensures |r| <= |s| && |s| <= |r| + 2
    ensures var a := if |s| > 0 && IsQuote(s[0]) then 1 else 0; a + |r| <= |s| && r == s[a..a + |r|]
    ensures var a := if |s| > 0 && IsQuote(s[0]) then 1 else 0;
            a + |r| < |s| <==> (|s| > a && IsQuote(s[|s| - 1]))
    ensures var a := if |s| > 0 && IsQuote(s[0]) then 1 else 0; |s| <= a + |r| + 1
    ensures (|s| == 0 || (!IsQuote(s[0]) && !IsQuote(s[|s| - 1]))) ==> r == s
  {
    var t := if |s| > 0 && IsQuote(s[0]) then s[1..] else s;
    if |t| > 0 && IsQuote(t[|t| - 1]) then t[..|t| - 1] else t
  }

  /** Quoting a phrase and normalising it gives the phrase back. */
  lemma StripQuotesOfQuoted(open: char, phrase: string, close: char)
    requires IsQuote(open) && IsQuote(close)
    ensures StripQuotes([open] + phrase + [close]) == phrase
  {
    var s := [open] + phrase + [close];
    assert s[1..] == phrase + [close];
    assert (phrase + [close])[..|phrase|] == phrase;
  }

  /** A main phrase that is a lone quotation mark passes the emptiness check
      but normalises to the empty string. */
  lemma LoneQuoteBecomesEmpty()
    ensures StripQuotes("\"") == "" && StripQuotes("'") == ""
  {
  }

  /** The four-line parse of the completion `content`: the lines are the raw
      pieces of `content.split('\n')`, untrimmed; a missing or empty one of
      the first four fails the request, and the lines after the fourth are
      ignored. */
  function ParseCard(content: string, targetWord: string, initialSentence: string, now: nat): (r: Result<Card, string>)
    ensures var lines := Split(content, "\n");
            r.Failure? <==> (|lines| < 4 || lines[0] == "" || lines[1] == "" || lines[2] == "" || lines[3] == "")
    ensures r.Failure? ==> r.error == IncompleteDataError
    ensures var lines := Split(content, "\n");
            r.Success? ==>
              && r.value.word == targetWord
              && r.value.originalSentence == initialSentence
              && r.value.lexicalItem == StripQuotes(lines[0])
              && r.value.simpleDefinition == lines[1]
              && Join(r.value.collocations, ", ") == lines[2]
              && (forall c <- r.value.collocations :: !Contains(c, ", "))
              && r.value.contextSentence == lines[3]
              && r.value.illustration == PlaceholderImage
              && !r.value.isStarred
              && r.value.id == DecimalString(now)
  {
    var lines := Split(content, "\n");
    if |lines| < 4 || lines[0] == "" || lines[1] == "" || lines[2] == "" || lines[3] == "" then
      Failure(IncompleteDataError)
    else
      var collocations := Split(lines[2], ", ");
      JoinSplit(lines[2], ", ");
      SplitPiecesFree(lines[2], ", ");
      Success(Card(
        DecimalString(now), targetWord, StripQuotes(lines[0]), initialSentence,
        lines[1], collocations, lines[3], PlaceholderImage, false))
  }

  /** Lines after the fourth do not affect the card. */
  lemma ParseIgnoresExtraLines(first: seq<string>, rest: string, targetWord: string, initialSentence: string, now: nat)
    requires |first| == 4 && forall l <- first :: !Contains(l, "\n")
    ensures ParseCard(Join(first, "\n") + "\n" + rest, targetWord, initialSentence, now)
         == ParseCard(Join(first, "\n"), targetWord, initialSentence, now)
  {
    SplitJoin(first, "\n");
    SplitAppend(Join(first, "\n"), "\n", rest);
    var all := Split(Join(first, "\n") + "\n" + rest, "\n");
    assert all[..4] == first;
  }

  /** The message of a provider failure: the `Error`'s own message, or
      "Unknown error" for anything else that was thrown. */
  function ProviderErrorMessage(f: ProviderFailure): (m: string)
    ensures StartsWith(m, ProviderErrorPrefix)
    ensures f.isErrorInstance ==> m == ProviderErrorPrefix + f.text
    ensures !f.isErrorInstance ==> m == ProviderErrorPrefix + UnknownError
  {
    var m := ProviderErrorPrefix + (if f.isErrorInstance then f.text else UnknownError);
    assert m[..|ProviderErrorPrefix|] == ProviderErrorPrefix;
    m
  }

  /** What the route answers once the inputs are present and `prompt` has
      been sent: the provider's failure, an empty completion and a completion
      that does not parse are 500 errors; otherwise the parsed card. */
  function Respond(prompt: string, targetWord: string, initialSentence: string,
                   provider: CompletionProvider, now: nat): (r: Response)
    ensures provider(prompt).Failure? ==>
              r == Response(500, ErrorBody(ProviderErrorMessage(provider(prompt).error), None))
    ensures provider(prompt) == Success("") ==> r == Response(500, ErrorBody(NoContentError, None))
    ensures provider(prompt).Success? && provider(prompt).value != "" &&
            ParseCard(provider(prompt).value, targetWord, initialSentence, now).Failure? ==>
              r == Response(500, ErrorBody(IncompleteDataError, None))
    ensures r.status == 200 <==>
              provider(prompt).Success? && provider(prompt).value != "" &&
              ParseCard(provider(prompt).value, targetWord, initialSentence, now).Success?
    ensures r.status == 200 ==>
              r.body == FlashcardBody(ParseCard(provider(prompt).value, targetWord, initialSentence, now).value)
    ensures r.status != 200 ==> r.status == 500 && r.body.ErrorBody? && r.body.details.None?
  {
    match provider(prompt)
    case Failure(f) => Response(500, ErrorBody(ProviderErrorMessage(f), None))
    case Success(content) =>
      if content == "" then Response(500, ErrorBody(NoContentError, None))
      else
        match ParseCard(content, targetWord, initialSentence, now)
        case Failure(e) => Response(500, ErrorBody(e, None))
        case Success(card) => Response(200, FlashcardBody(card))
  }

  /** The route: `targetWord` and `initialSentence` as the request body holds
      them, the provider, and the clock reading that becomes the card's id.
      Missing or empty inputs are rejected before the provider is called;
      otherwise the prompt embeds both inputs. */
  function GenerateFlashcard(targetWord: Option<string>, initialSentence: Option<string>,
                             provider: CompletionProvider, now: nat): (x: Exchange)
    ensures !(Truthy(targetWord) && Truthy(initialSentence)) ==> x == Rejected(400, MissingInputsError)
    ensures Truthy(targetWord) && Truthy(initialSentence) ==>
              && x.sent == Some(FlashcardPrompt(initialSentence.value, targetWord.value))
              && x.response == Respond(x.sent.value, targetWord.value, initialSentence.value, provider, now)
  {
    if !(Truthy(targetWord) && Truthy(initialSentence)) then
      Rejected(400, MissingInputsError)
    else
      var prompt := FlashcardPrompt(initialSentence.value, targetWord.value);
      Exchange(Some(prompt), Respond(prompt, targetWord.value, initialSentence.value, provider, now))
  }
}
