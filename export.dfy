/**
 * The paragraph filter of the `/export` endpoint: the document gets its fixed
 * heading and then one paragraph per line of the text that is not blank, copied
 * unchanged (not stripped).
 */
module Export {
  import opened Chars
  import opened Text
  import opened Seqs

  /** The parts of the produced document that are modelled: its heading and its paragraphs. */
  datatype Document = Document(heading: string, headingLevel: nat, paragraphs: seq<string>)

  const Title: string := "Распознанный архивный документ"

  /** What one line contributes: itself, unchanged, unless it is blank. */
  function NonBlankOf(line: string): seq<string>
  {
    if Strip(line) != [] then [line] else []
  }

  /** The lines of `lines` that are not blank, unchanged and in their order. */
  function NonBlank(lines: seq<string>): seq<string>
  {
    ConcatMap(NonBlankOf, lines)
  }

  /** The paragraphs the document receives for `text`. */
  function Paragraphs(text: string): seq<string>
  {
    NonBlank(Split(text))
  }

  /** The loop of the endpoint: the lines that are not blank, each added unchanged. */
  method NonBlankLines(lines: seq<string>) returns (ps: seq<string>)
    ensures ps == NonBlank(lines)
  {
    ps := [];
    for k := 0 to |lines|
      invariant ps == NonBlank(lines[..k])
    {
      NonBlankStep(lines, k);
      var line := lines[k];
      if Strip(line) != [] {
        ps := ps + [line];
      }
    }
    assert lines[..|lines|] == lines;
  }

  /** One turn of the loop: a line that is not blank is appended, a blank one is not. */
  lemma NonBlankStep(lines: seq<string>, k: nat)
    requires k < |lines|
    ensures NonBlank(lines[..k + 1]) == NonBlank(lines[..k]) + if Strip(lines[k]) != [] then [lines[k]] else []
  {
    ConcatMapStep(NonBlankOf, lines, k);
  }

  /** The document for `text`: the fixed heading at level 0, then the paragraphs. */
  method ExportDocument(text: string) returns (doc: Document)
    ensures doc == Document(Title, 0, Paragraphs(text))
  {
    var paragraphs := NonBlankLines(Split(text));
    doc := Document(Title, 0, paragraphs);
  }

  // ---------------------------------------------------------------------------

  /** Filtering two runs of lines one after the other concatenates what survives of each. */
  lemma NonBlankAppend(a: seq<string>, b: seq<string>)
    ensures NonBlank(a + b) == NonBlank(a) + NonBlank(b)
  {
    ConcatMapAppend(NonBlankOf, a, b);
  }

  /** A line is a paragraph exactly when it is one of the lines and its strip is not empty. */
  lemma NonBlankMembers(lines: seq<string>)
    ensures forall x :: x in NonBlank(lines) <==> x in lines && Strip(x) != []
  {
    ConcatMapSound(NonBlankOf, lines);
    ConcatMapComplete(NonBlankOf, lines);
    forall x ensures x in NonBlank(lines) <==> x in lines && Strip(x) != [] {
      if x in lines && Strip(x) != [] {
        assert x in NonBlankOf(x);
      }
    }
  }

  /** Never more paragraphs than lines. */
  lemma NonBlankFewer(lines: seq<string>)
    ensures |NonBlank(lines)| <= |lines|
  {
    ConcatMapShort(NonBlankOf, lines);
  }

  /**
   * The paragraphs of `text` are exactly its lines that are not blank, each as it
   * stands in the text, and there are no more of them than lines.
   */
  lemma ParagraphsMembers(text: string)
    ensures forall x :: x in Paragraphs(text) <==> x in Split(text) && !All(x, Space)
    ensures forall x :: x in Paragraphs(text) ==> '\n' !in x
    ensures |Paragraphs(text)| <= |Split(text)|
  {
    NonBlankMembers(Split(text));
    NonBlankFewer(Split(text));
    forall x ensures x in Paragraphs(text) <==> x in Split(text) && !All(x, Space) {
      StripEmptyIffBlank(x);
    }
  }

  /** The paragraphs keep the order of the lines: those of `a` come before those of `b`. */
  lemma ParagraphsInOrder(a: string, b: string)
    ensures Paragraphs(a + "\n" + b) == Paragraphs(a) + Paragraphs(b)
  {
    SplitAround(a, b);
    NonBlankAppend(Split(a), Split(b));
  }
}
