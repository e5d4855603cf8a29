/** What the API routes exchange with the completion provider and with the
    browser. The provider (OpenAI or Anthropic, chosen from the environment,
    in the flashcard route; always Anthropic in the story and simplify
    routes) is a function from prompt to completion text; it either answers
    or throws. A reply whose content is missing arrives as the empty string. */
module Provider {
  import opened Wrappers
  import opened CardTypes

  /** What the provider threw: an `Error` instance with its message, or any
      other value with its `String(...)` rendering. */
  datatype ProviderFailure = ProviderFailure(isErrorInstance: bool, text: string)

  /** One call of `generateCompletion`: the content of the completion, or
      what it threw. */
  type CompletionProvider = string -> Result<string, ProviderFailure>

  /** The JSON bodies the routes send. */
  datatype Body =
    | FlashcardBody(card: Card)
    | StoryBody(title: Option<string>, story: string)
    | SimplifiedBody(simplifiedText: string)
    | ErrorBody(error: string, details: Option<string>)

  /** `NextResponse.json(body, { status })`; status 200 when none is given. */
  datatype Response = Response(status: nat, body: Body)

  /** One request's handling: the prompt sent to the provider, if any, and
      the response returned. */
  datatype Exchange = Exchange(sent: Option<string>, response: Response)

  /** The exchange of a request rejected before the provider is called. */
  function Rejected(status: nat, error: string): (x: Exchange)
    ensures x.sent.None? && x.response.status == status && x.response.body.ErrorBody?
  {
    Exchange(None, Response(status, ErrorBody(error, None)))
  }

  /** `value.startsWith(prefix)`. */
  predicate StartsWith(value: string, prefix: string) {
    |prefix| <= |value| && value[..|prefix|] == prefix
  }
}
