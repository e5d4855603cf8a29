/** `POST /api/generateStory`: ask the provider for a very short titled story
    that uses the given phrases, and split the completion into the title
    (its first non-empty line) and the story (the other non-empty lines). */
module GenerateStory {
  import opened Wrappers
  import opened JsText
  import opened SeqFilter
  import opened Provider

  const InvalidInputError: string := "Invalid input"
  const StoryError: string := "Failed to generate story"

  /** The prompt text after the phrases, written in short pieces. */
  const StoryRules: string := Join([
    ". The story should be ", "cohesive, engaging, and ", "no longer than 30 ",
    "words. The short story ", "must have a title no ", "longer than 3 words. ",
    "Output should contain ", "only the story without ", "any additional info."
  ], "")

  const StoryHead: string := "Create a short story " + "using the following phrases: "

  /** The prompt, with the phrases joined by `", "`. */
  function StoryPrompt(phrases: seq<string>): string {
    StoryHead + Join(phrases, ", ") + StoryRules
  }

  /** The prompt carries the phrases joined by `", "` verbatim between the
      request and the rules. */
  lemma StoryPromptPhrases(phrases: seq<string>)
    ensures var r := StoryPrompt(phrases);
            var a := |StoryHead|;
            var j := Join(phrases, ", ");
            && |r| == a + |j| + |StoryRules|
            && r[..a] == StoryHead
            && r[a..a + |j|] == j
            && r[a + |j|..] == StoryRules
  {
    Spliced(StoryHead, Join(phrases, ", "), StoryRules);
  }

  /** `Boolean` as a filter on strings: the non-empty ones pass. */
  predicate NonEmpty(line: string) {
    |line| > 0
  }

  /** `content.split('\n').filter(Boolean)`, destructured as
      `[title, ...storyParts]` and sent as `{ title, story }`: no title when
      every line is empty, and the story is the other lines joined again. */
  function StoryOf(content: string): (b: Body)
    ensures b.StoryBody?
    ensures b.title.None? <==> forall line <- Split(content, "\n") :: |line| == 0
    ensures b.title.Some? ==> b.title.value in Split(content, "\n") && |b.title.value| > 0
    ensures |Filter(Split(content, "\n"), NonEmpty)| <= 1 ==> b.story == ""
  {
    var lines := Filter(Split(content, "\n"), NonEmpty);
    if |lines| == 0 then
      StoryBody(None, "")
    else
      assert lines[0] in lines && NonEmpty(lines[0]);
      StoryBody(Some(lines[0]), Join(lines[1..], "\n"))
  }

  /** The title is the first non-empty line of the completion. */
  lemma StoryTitleIsFirstLine(content: string, i: nat)
    requires i < |Split(content, "\n")| && |Split(content, "\n")[i]| > 0
    requires forall j :: 0 <= j < i ==> |Split(content, "\n")[j]| == 0
    ensures StoryOf(content).title == Some(Split(content, "\n")[i])
  {
    FilterHead(Split(content, "\n"), NonEmpty, i);
  }

  /** The story's own lines are the non-empty completion lines after the
      title, in order and none of them empty. */
  lemma StoryLines(content: string)
    requires |Filter(Split(content, "\n"), NonEmpty)| >= 2
    ensures Split(StoryOf(content).story, "\n") == Filter(Split(content, "\n"), NonEmpty)[1..]
    ensures forall line <- Split(StoryOf(content).story, "\n") :: |line| > 0
  {
    var lines := Filter(Split(content, "\n"), NonEmpty);
    SplitPiecesFree(content, "\n");
    SplitJoin(lines[1..], "\n");
  }

  /** A completion with at least two lines and no empty one is rebuilt
      exactly by the title, a newline and the story. */
  lemma StoryRoundTrip(content: string)
    requires |Split(content, "\n")| >= 2
    requires forall line <- Split(content, "\n") :: |line| > 0
    ensures StoryOf(content).title.Some?
    ensures StoryOf(content).title.value + "\n" + StoryOf(content).story == content
  {
    var lines := Split(content, "\n");
    FilterKeepsAll(lines, NonEmpty);
    JoinSplit(content, "\n");
  }

  /** What the route answers once the prompt has been sent: a thrown error
      and an empty completion are the same 500 error; otherwise the story. */
  function StoryResponse(reply: Result<string, ProviderFailure>): (r: Response)
    ensures r.status == 200 <==> reply.Success? && reply.value != ""
    ensures r.status != 200 ==> r == Response(500, ErrorBody(StoryError, None))
    ensures r.status == 200 ==> r.body == StoryOf(reply.value)
  {
    if reply.Success? && reply.value != "" then Response(200, StoryOf(reply.value))
    else Response(500, ErrorBody(StoryError, None))
  }

  /** The route. `phrases` is `None` when the field is missing, falsy or not
      an array; any array, the empty one included, is accepted. */
  function GenerateStory(phrases: Option<seq<string>>, provider: CompletionProvider): (x: Exchange)
    ensures phrases.None? ==> x == Rejected(400, InvalidInputError)
    ensures phrases.Some? ==>
              && x.sent == Some(StoryPrompt(phrases.value))
              && x.response == StoryResponse(provider(x.sent.value))
  {
    match phrases
    case None => Rejected(400, InvalidInputError)
    case Some(items) =>
      var prompt := StoryPrompt(items);
      Exchange(Some(prompt), StoryResponse(provider(prompt)))
  }
}
