/** `POST /api/simplifyText`: ask the provider to simplify a text, then clean
    the completion of the introductions models tend to put in front of it. */
module SimplifyText {
  import opened Wrappers
  import opened JsText
  import opened Provider

  const MissingTextError: string := "Missing text"
  const UnexpectedError: string := "An unexpected error occurred"
  const InvalidResponseError: string := "Invalid response from AI provider"

  /** The prompt text before the input: its lines joined by newlines, the
      last one empty so that the input starts on a line of its own; long
      lines are written in short pieces. */
  const SimplifyRules: string := Join([
    "Your task is to " + "simplify the given " + "text. Follow these " + "rules strictly:",
    "",
    "1. Use simpler " + "vocabulary",
    "2. Reduce the length by " + "approximately 50%",
    "3. Simplify the grammar",
    "4. Maintain the main " + "ideas and key " + "information",
    "",
    "IMPORTANT: Your output " + "must contain ONLY the " + "simplified text. Do not " +
    "include any " + "introductory phrases, " + "explanations, or " + "metadata. Start " +
    "directly with the " + "simplified content.",
    "",
    "Input:",
    ""
  ], "\n")

  const SimplifyTail: string := "\n\nSimplified text:"

  /** The prompt, with the text spliced in verbatim. */
  function SimplifyPrompt(text: string): string {
    SimplifyRules + text + SimplifyTail
  }

  /** The prompt is the rules, the text verbatim and the closing label, so
      different texts give different prompts. */
  lemma SimplifyPromptInjective(text: string, other: string)
    requires text != other
    ensures SimplifyPrompt(text) != SimplifyPrompt(other)
  {
    Spliced(SimplifyRules, text, SimplifyTail);
    Spliced(SimplifyRules, other, SimplifyTail);
  }

  /** `r` is the piece of `s` that starts at index `a`. */
  predicate PieceAt(r: string, s: string, a: int) {
    0 <= a <= |s| - |r| && r == s[a..a + |r|]
  }

  /** `r` is a contiguous piece of `s`. */
  predicate Within(r: string, s: string) {
    exists a :: 0 <= a <= |s| && PieceAt(r, s, a)
  }

  /** A piece of a piece is a piece. */
  lemma WithinTransitive(r: string, s: string, t: string)
    requires Within(r, s) && Within(s, t)
    ensures Within(r, t)
  {
    var a :| 0 <= a <= |s| && PieceAt(r, s, a);
    var b :| 0 <= b <= |t| && PieceAt(s, t, b);
    forall k | 0 <= k < |r| ensures r[k] == t[b + a + k] {
      assert r[k] == s[a + k] && s[a + k] == t[b + a + k];
    }
    assert r == t[b + a..b + a + |r|];
    assert PieceAt(r, t, b + a);
  }

  /** A trimmed string is a piece of the string. */
  lemma TrimWithin(s: string)
    ensures Within(Trim(s), s)
  {
    var r := Trim(s);
    var a :| 0 <= a <= |s| && CutAt(r, s, a);
    assert PieceAt(r, s, a);
  }

  /** A suffix is a piece. */
  lemma SuffixWithin(d: string, s: string)
    requires |d| <= |s| && d == s[|s| - |d|..]
    ensures Within(d, s)
  {
    assert PieceAt(d, s, |s| - |d|);
  }

  /** Trimming a suffix leaves a piece of the whole string. */
  lemma TrimSuffixWithin(d: string, s: string)
    requires |d| <= |s| && d == s[|s| - |d|..]
    ensures Within(Trim(d), s)
  {
    TrimWithin(d);
    SuffixWithin(d, s);
    WithinTransitive(Trim(d), d, s);
  }

  const IntroHead: string := "here is a simplified version of the "

  /** The three introductions the first `replace` recognises before its
      optional colon. */
  const LongIntro: string := IntroHead + "input text"
  const ShortIntro: string := IntroHead + "text"
  const Label: string := "simplified text"

  /** Every text the pattern `here is a simplified version of the (input
      )?text:?|simplified text:?` matches, compared case-insensitively. */
  const IntroForms: seq<string> :=
    [LongIntro + ":", LongIntro, ShortIntro + ":", ShortIntro, Label + ":", Label]

  /** A text opens with `x` followed by a colon exactly when it opens with
      `x` and the next character is a colon. */
  lemma ColonForm(s: string, x: string)
    ensures StartsWithIgnoringCase(s, x + ":") <==>
              StartsWithIgnoringCase(s, x) && |x| < |s| && s[|x|] == ':'
  {
    if StartsWithIgnoringCase(s, x + ":") {
      StartsWithPrefix(s, x, ":");
      assert CharMatchesIgnoringCase(s[|x|], (x + ":")[|x|]);
    }
    if StartsWithIgnoringCase(s, x) && |x| < |s| && s[|x|] == ':' {
      forall i | 0 <= i < |x + ":"| ensures CharMatchesIgnoringCase(s[i], (x + ":")[i]) {
        if i < |x| { assert (x + ":")[i] == x[i]; }
      }
    }
  }

  /** No text opens with two of the three introductions. */
  lemma IntrosExclusive(s: string)
    ensures !(StartsWithIgnoringCase(s, LongIntro) && StartsWithIgnoringCase(s, ShortIntro))
    ensures !(StartsWithIgnoringCase(s, LongIntro) && StartsWithIgnoringCase(s, Label))
    ensures !(StartsWithIgnoringCase(s, ShortIntro) && StartsWithIgnoringCase(s, Label))
  {
    var h := |IntroHead|;
    assert LongIntro[h] == 'i' && ShortIntro[h] == 't';
    assert LongIntro[0] == 'h' && ShortIntro[0] == 'h' && Label[0] == 's';
  }

  /** How much of the start of `s` the first `replace` removes: the longest
      introduction form `s` opens with, or 0 when it opens with none. The
      alternatives of the pattern are tried in order and the colon is
      greedy, which selects that longest form because no text opens with
      two different introductions. */
  function IntroLength(s: string): (n: nat)
    ensures n <= |s|
    ensures n == 0 <==> forall i :: 0 <= i < |IntroForms| ==> !StartsWithIgnoringCase(s, IntroForms[i])
    ensures n > 0 ==> exists i :: 0 <= i < |IntroForms| && |IntroForms[i]| == n && StartsWithIgnoringCase(s, IntroForms[i])
    ensures forall i :: 0 <= i < |IntroForms| && StartsWithIgnoringCase(s, IntroForms[i]) ==> |IntroForms[i]| <= n
  {
    var m :=
      if StartsWithIgnoringCase(s, LongIntro) then |LongIntro|
      else if StartsWithIgnoringCase(s, ShortIntro) then |ShortIntro|
      else if StartsWithIgnoringCase(s, Label) then |Label|
      else 0;
    var n := if 0 < m < |s| && s[m] == ':' then m + 1 else m;
    IntroFormsMatched(s, m, n);
    n
  }

  /** The proof of `IntroLength`'s contract, form by form. */
  lemma IntroFormsMatched(s: string, m: nat, n: nat)
    requires m == if StartsWithIgnoringCase(s, LongIntro) then |LongIntro|
                 else if StartsWithIgnoringCase(s, ShortIntro) then |ShortIntro|
                 else if StartsWithIgnoringCase(s, Label) then |Label|
                 else 0
    requires n == if 0 < m < |s| && s[m] == ':' then m + 1 else m
    ensures n <= |s|
    ensures n == 0 <==> forall i :: 0 <= i < |IntroForms| ==> !StartsWithIgnoringCase(s, IntroForms[i])
    ensures n > 0 ==> exists i :: 0 <= i < |IntroForms| && |IntroForms[i]| == n && StartsWithIgnoringCase(s, IntroForms[i])
    ensures forall i :: 0 <= i < |IntroForms| && StartsWithIgnoringCase(s, IntroForms[i]) ==> |IntroForms[i]| <= n
  {
    IntrosExclusive(s);
    ColonForm(s, LongIntro);
    ColonForm(s, ShortIntro);
    ColonForm(s, Label);
    assert |IntroForms| == 6;
    var bases := [LongIntro, ShortIntro, Label];
    forall i | 0 <= i < 6
      ensures IntroForms[i] == bases[i / 2] + ":" || IntroForms[i] == bases[i / 2]
      ensures i % 2 == 0 ==> IntroForms[i] == bases[i / 2] + ":"
      ensures i % 2 == 1 ==> IntroForms[i] == bases[i / 2]
    {
    }
    forall b | 0 <= b < 3 && StartsWithIgnoringCase(s, bases[b]) ensures m == |bases[b]| {
    }
    if n > 0 {
      var b := if StartsWithIgnoringCase(s, LongIntro) then 0 else if StartsWithIgnoringCase(s, ShortIntro) then 1 else 2;
      var i := if n == m + 1 then 2 * b else 2 * b + 1;
      assert |IntroForms[i]| == n && StartsWithIgnoringCase(s, IntroForms[i]);
    }
  }

  /** The second test, `/^(here|this|following|below)/i`. */
  predicate StartsWithLeadWord(s: string) {
    || StartsWithIgnoringCase(s, "here")
    || StartsWithIgnoringCase(s, "this")
    || StartsWithIgnoringCase(s, "following")
    || StartsWithIgnoringCase(s, "below")
  }

  /** The characters that end a sentence in `[.!?]`. */
  predicate IsTerminator(c: char) {
    c == '.' || c == '!' || c == '?'
  }

  /** The index of the first sentence terminator at or after `from`, or
      `|s|` when there is none. */
  function SentenceEnd(s: string, from: nat): (k: nat)
    requires from <= |s|
    ensures from <= k <= |s|
    ensures k < |s| ==> IsTerminator(s[k])
    ensures forall j :: from <= j < k ==> !IsTerminator(s[j])
    decreases |s| - from
  {
    if from == |s| || IsTerminator(s[from]) then from else SentenceEnd(s, from + 1)
  }

  // `s.replace(/^[^.!?]+[.!?]\s*/i, '')`: a first sentence, which must
  // have at least one character before its terminator, is removed with the
  // whitespace after it; without one, `s` is returned unchanged.
  function DropFirstSentence(s: string): (r: string)
    ensures |r| <= |s| && r == s[|s| - |r|..]
    ensures var k := SentenceEnd(s, 0);
            && (0 < k < |s| ==> |r| < |s| - k && (r == [] || !IsWhitespace(r[0])))
            && (0 < k < |s| ==> forall i :: k < i < |s| - |r| ==> IsWhitespace(s[i]))
            && (k == 0 || k == |s| ==> r == s)
  {
    var k := SentenceEnd(s, 0);
    if 0 < k < |s| then
      var r := TrimStart(s[k + 1..]);
      TailTrimmed(s, k + 1, r);
      r
    else
      s
  }

  /** What `TrimStart` keeps of the tail of `s` from `j`, restated as positions of `s`. */
  lemma TailTrimmed(s: string, j: nat, r: string)
    requires j <= |s| && |r| <= |s| - j
    requires r == s[j..][|s| - j - |r|..]
    requires IsBlank(s[j..][..|s| - j - |r|])
    ensures r == s[|s| - |r|..]
    ensures forall i :: j <= i < |s| - |r| ==> IsWhitespace(s[i])
  {
    assert s[j..][|s| - j - |r|..] == s[|s| - |r|..];
    forall i | j <= i < |s| - |r| ensures IsWhitespace(s[i]) {
      assert s[i] == s[j..][..|s| - j - |r|][i - j];
    }
  }

  /** The first `replace` and the `trim` after it. */
  function StripIntro(s: string): (r: string)
    ensures NoOuterWhitespace(r) && |r| <= |s| && Within(r, s)
    ensures r == Trim(s[IntroLength(s)..])
    ensures IntroLength(s) == 0 && NoOuterWhitespace(s) ==> r == s
  {
    var n := IntroLength(s);
    TrimSuffixWithin(s[n..], s);
    assert n == 0 && NoOuterWhitespace(s) ==> Trim(s[n..]) == s by {
      if n == 0 && NoOuterWhitespace(s) {
        assert s[n..] == s;
        TrimUntouched(s);
      }
    }
    Trim(s[n..])
  }

  /** The lead-word test, the second `replace` and the `trim` after it. */
  function StripLeadSentence(s: string): (r: string)
    requires NoOuterWhitespace(s)
    ensures NoOuterWhitespace(r) && |r| <= |s| && Within(r, s)
    ensures !StartsWithLeadWord(s) ==> r == s
    ensures StartsWithLeadWord(s) && 0 < SentenceEnd(s, 0) < |s| ==> |r| < |s| - SentenceEnd(s, 0)
    ensures var k := SentenceEnd(s, 0);
            StartsWithLeadWord(s) && 0 < k < |s| ==> r == Trim(s[k + 1..])
    ensures var k := SentenceEnd(s, 0);
            StartsWithLeadWord(s) && !(0 < k < |s|) ==> r == s
  {
    if StartsWithLeadWord(s) then
      TrimSuffixWithin(DropFirstSentence(s), s);
      var k := SentenceEnd(s, 0);
      assert 0 < k < |s| ==> Trim(DropFirstSentence(s)) == Trim(s[k + 1..]) by {
        if 0 < k < |s| {
          TrimAfterTrimStart(s[k + 1..]);
        }
      }
      assert !(0 < k < |s|) ==> Trim(DropFirstSentence(s)) == s by {
        TrimUntouched(s);
      }
      Trim(DropFirstSentence(s))
    else
      assert PieceAt(s, s, 0);
      s
  }

  /** The cleanup of a completion: trim; drop one introduction; trim; if
      what is left still opens with a lead word, drop its first sentence
      and trim again. The result is a piece of the completion, no longer
      than the trimmed completion and with no whitespace at either end. */
  function CleanSimplified(content: string): (r: string)
    ensures NoOuterWhitespace(r)
    ensures |r| <= |Trim(content)|
    ensures Within(r, content)
  {
    var s1 := Trim(content);
    var s2 := StripIntro(s1);
    TrimWithin(content);
    WithinTransitive(s2, s1, content);
    WithinTransitive(StripLeadSentence(s2), s2, content);
    StripLeadSentence(s2)
  }

  /** The cleanup spelled out step by step: the trimmed completion loses
      its longest introduction and is trimmed again; if that opens with a
      lead word and has a terminator after its first character and before
      its end, everything up to and including the first terminator goes and
      the rest is trimmed; otherwise it is the result. */
  lemma CleanSimplifiedSteps(content: string)
    ensures var t := Trim(content);
            var s := Trim(t[IntroLength(t)..]);
            var k := SentenceEnd(s, 0);
            StartsWithLeadWord(s) && 0 < k < |s| ==> CleanSimplified(content) == Trim(s[k + 1..])
    ensures var t := Trim(content);
            var s := Trim(t[IntroLength(t)..]);
            var k := SentenceEnd(s, 0);
            !(StartsWithLeadWord(s) && 0 < k < |s|) ==> CleanSimplified(content) == s
  {
    var t := Trim(content);
    var s := Trim(t[IntroLength(t)..]);
    assert StripIntro(t) == s;
    assert CleanSimplified(content) == StripLeadSentence(s);
  }

  /** A completion that is already clean (trimmed, no introduction, no lead
      word) comes back unchanged. */
  lemma CleanUntouched(content: string)
    requires NoOuterWhitespace(content)
    requires IntroLength(content) == 0 && !StartsWithLeadWord(content)
    ensures CleanSimplified(content) == content
  {
    TrimUntouched(content);
  }

  /** A single leading space is all `trimStart` removes from text that
      starts with no whitespace of its own. */
  lemma TrimStartSpace(rest: string)
    requires rest == [] || !IsWhitespace(rest[0])
    ensures TrimStart(" " + rest) == rest
  {
    assert IsWhitespace(' ');
    assert (" " + rest)[1..] == rest;
  }

  /** A single leading space is trimmed off text that starts with no
      whitespace of its own. */
  lemma TrimLeadingSpace(rest: string)
    requires NoOuterWhitespace(rest)
    ensures Trim(" " + rest) == rest
  {
    TrimStartSpace(rest);
    TrimUntouched(rest);
  }

  /** The label `Simplified text:` is an introduction of 16 characters. */
  lemma LabelLength(rest: string)
    ensures IntroLength("Simplified text: " + rest) == 16
  {
    var s := "Simplified text: " + rest;
    assert !CharMatchesIgnoringCase(s[0], IntroHead[0]);
    assert StartsWithIgnoringCase(s, "simplified text");
    assert s[15] == ':';
  }

  /** A completion that opens with the label `Simplified text:` loses the
      label and the space after it, and nothing else. */
  lemma LabelRemoved(rest: string)
    requires NoOuterWhitespace(rest) && |rest| > 0 && !StartsWithLeadWord(rest)
    ensures CleanSimplified("Simplified text: " + rest) == rest
  {
    var tag := "Simplified text:";
    var s := tag + (" " + rest);
    assert s == "Simplified text: " + rest;
    assert s[|tag|..] == " " + rest;
    assert NoOuterWhitespace(s);
    TrimUntouched(s);
    LabelLength(rest);
    TrimLeadingSpace(rest);
    assert StripIntro(s) == rest;
    assert StripLeadSentence(rest) == rest;
  }

  /** The first sentence of `sentence + [stop] + " " + rest`, where
      `sentence` holds no terminator, ends at `stop`. */
  lemma SentenceEndsAtStop(sentence: string, stop: char, rest: string)
    requires |sentence| > 0 && forall c <- sentence :: !IsTerminator(c)
    requires IsTerminator(stop)
    ensures SentenceEnd(sentence + [stop] + " " + rest, 0) == |sentence|
  {
    var s := sentence + [stop] + " " + rest;
    var k := SentenceEnd(s, 0);
    assert IsTerminator(s[|sentence|]);
    assert forall j :: 0 <= j < |sentence| ==> s[j] == sentence[j];
  }

  /** Text that opens with a lead word and not with `here is a simplified
      version of the ` has no introduction at all: every introduction
      opens with that phrase or with `simplified text`, whose `s` no lead
      word shares. */
  lemma LeadWordHasNoIntro(s: string)
    requires StartsWithLeadWord(s) && !StartsWithIgnoringCase(s, IntroHead)
    ensures IntroLength(s) == 0
  {
    assert !CharMatchesIgnoringCase(s[0], Label[0]);
    if StartsWithIgnoringCase(s, LongIntro) {
      StartsWithPrefix(s, IntroHead, "input text");
    }
    if StartsWithIgnoringCase(s, ShortIntro) {
      StartsWithPrefix(s, IntroHead, "text");
    }
  }

  /** Dropping the first sentence of `sentence + [stop] + " " + rest`
      leaves `rest`. */
  lemma DropsToRest(sentence: string, stop: char, rest: string)
    requires |sentence| > 0 && forall c <- sentence :: !IsTerminator(c)
    requires IsTerminator(stop)
    requires NoOuterWhitespace(rest)
    ensures DropFirstSentence(sentence + [stop] + " " + rest) == rest
  {
    var s := sentence + [stop] + " " + rest;
    SentenceEndsAtStop(sentence, stop, rest);
    var t := s[|sentence| + 1..];
    assert t == " " + rest;
    TrimStartSpace(rest);
  }

  /** A completion that opens with a lead word loses its first sentence,
      whichever of `.`, `!` or `?` ends it, and the space after it, when
      that sentence is not an introduction the first `replace` already
      handles. */
  lemma LeadSentenceRemoved(sentence: string, stop: char, rest: string)
    requires StartsWithLeadWord(sentence)
    requires forall c <- sentence :: !IsTerminator(c)
    requires IsTerminator(stop)
    requires !StartsWithIgnoringCase(sentence + [stop] + " " + rest, IntroHead)
    requires NoOuterWhitespace(rest) && |rest| > 0
    ensures CleanSimplified(sentence + [stop] + " " + rest) == rest
  {
    var s := sentence + [stop] + " " + rest;
    assert forall j :: 0 <= j < |sentence| ==> s[j] == sentence[j];
    assert StartsWithLeadWord(s);
    assert NoOuterWhitespace(s) by {
      assert s[|s| - 1] == rest[|rest| - 1];
    }
    TrimUntouched(s);
    LeadWordHasNoIntro(s);
    assert s[0..] == s;
    DropsToRest(sentence, stop, rest);
    TrimStartSpace(rest);
    TrimAfterTrimStart(" " + rest);
    TrimUntouched(rest);
  }

  /** What the route answers once the prompt has been sent. A thrown error
      and an empty completion are both a 500 whose details are the error's
      message; otherwise the cleaned completion. */
  function SimplifyResponse(reply: Result<string, ProviderFailure>): (r: Response)
    ensures r.status == 200 <==> reply.Success? && reply.value != ""
    ensures r.status == 200 ==>
              && r.body == SimplifiedBody(CleanSimplified(reply.value))
              && NoOuterWhitespace(r.body.simplifiedText)
              && Within(r.body.simplifiedText, reply.value)
    ensures reply.Failure? ==> r == Response(500, ErrorBody(UnexpectedError, Some(reply.error.text)))
    ensures reply == Success("") ==> r == Response(500, ErrorBody(UnexpectedError, Some(InvalidResponseError)))
  {
    match reply
    case Failure(f) => Response(500, ErrorBody(UnexpectedError, Some(f.text)))
    case Success(content) =>
      if content == "" then Response(500, ErrorBody(UnexpectedError, Some(InvalidResponseError)))
      else Response(200, SimplifiedBody(CleanSimplified(content)))
  }

  /** The route. `text` is `None` when the field is missing; a missing or
      empty text is rejected before the provider is called. */
  function SimplifyText(text: Option<string>, provider: CompletionProvider): (x: Exchange)
    ensures !(text.Some? && text.value != "") ==> x == Rejected(400, MissingTextError)
    ensures text.Some? && text.value != "" ==>
              && x.sent == Some(SimplifyPrompt(text.value))
              && x.response == SimplifyResponse(provider(x.sent.value))
  {
    if text.Some? && text.value != "" then
      var prompt := SimplifyPrompt(text.value);
      Exchange(Some(prompt), SimplifyResponse(provider(prompt)))
    else
      Rejected(400, MissingTextError)
  }
}
