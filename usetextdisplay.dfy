/** `useTextDisplay`: the paragraphs of the submitted text and the two flags
    that choose between the original and the simplified view. */
module UseTextDisplay {
  import opened JsText
  import opened SeqFilter

  /** `text.split('\n').filter(paragraph => paragraph.trim() !== '')`: the
      lines of `text` that are not blank, in order. */
  function Paragraphs(text: string): (r: seq<string>)
    ensures forall p <- r :: p in Split(text, "\n") && !IsBlank(p)
    ensures forall p <- Split(text, "\n") :: !IsBlank(p) ==> p in r
    ensures multiset(r) <= multiset(Split(text, "\n"))
  {
    Filter(Split(text, "\n"), (p: string) => Trim(p) != "")
  }

  /** Text that is not blank has at least one paragraph: were every line
      blank, the text, which is its lines joined by newlines, would be too. */
  lemma ParagraphsOfNonBlank(text: string)
    requires !IsBlank(text)
    ensures |Paragraphs(text)| > 0
  {
    var lines := Split(text, "\n");
    if |Paragraphs(text)| == 0 {
      assert forall p <- lines :: IsBlank(p);

      assert IsBlank("\n");
      JoinBlank(lines, "\n");
      JoinSplit(text, "\n");
      assert false;
    }
  }

  /** Paragraphs are taken line by line: the paragraphs of two texts joined
      by a newline are the paragraphs of the first, then of the second. */
  lemma ParagraphsAppend(a: string, b: string)
    ensures Paragraphs(a + "\n" + b) == Paragraphs(a) + Paragraphs(b)
  {
    SplitAppend(a, "\n", b);
    FilterAppend(Split(a, "\n"), Split(b, "\n"), (p: string) => Trim(p) != "");
  }

  class TextDisplay {
    var simplified: seq<string>
    var showSimplified: bool
    var showOriginal: bool

    /** No paragraphs yet; the original view is shown. */
    constructor ()
      ensures simplified == [] && !showSimplified && showOriginal
    {
      simplified := [];
      showSimplified := false;
      showOriginal := true;
    }

    /** `handleTextSubmit`: blank input is ignored; otherwise the paragraphs
        replace the old ones. The view flags are not touched. The test
        `trim() !== ''` is written as "not blank", which `Trim` shows to be
        the same. */
    method HandleTextSubmit(submittedText: string)
      modifies this`simplified
      ensures IsBlank(submittedText) ==> simplified == old(simplified)
      ensures !IsBlank(submittedText) ==> simplified == Paragraphs(submittedText) && |simplified| > 0
    {
      if !IsBlank(submittedText) {
        simplified := Paragraphs(submittedText);
        ParagraphsOfNonBlank(submittedText);
      }
    }

    /** `handleSimplify`: show the simplified view instead of the original. */
    method HandleSimplify()
      modifies this`showSimplified, this`showOriginal
      ensures showSimplified && !showOriginal
    {
      showSimplified := true;
      showOriginal := false;
    }

    /** `toggleOriginalText`. */
    method ToggleOriginalText()
      modifies this`showOriginal
      ensures showOriginal == !old(showOriginal)
    {
      showOriginal := !showOriginal;
    }
  }
}
