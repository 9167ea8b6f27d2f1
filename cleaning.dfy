/**
 * `clean_recognized_text`: split the recognised text into lines, strip every
 * line, keep the stripped lines longer than two characters, and join them again.
 */
module Cleaning {
  import opened Chars
  import opened Text
  import opened Seqs

  /** A stripped line survives when it is non-empty and longer than two characters. */
  predicate Keep(t: string) {
    t != [] && |t| > 2
  }

  /** What one line contributes: its stripped form if that survives, else nothing. */
  function KeptOf(line: string): seq<string>
  {
    var t := Strip(line);
    if Keep(t) then [t] else []
  }

  /** The stripped lines of `lines` that survive, in their order. */
  function KeptLines(lines: seq<string>): seq<string>
  {
    ConcatMap(KeptOf, lines)
  }

  /** The result of `clean_recognized_text(text)`; an empty text comes back as it is. */
  function Cleaned(text: string): string
  {
    if text == "" then text else Join(KeptLines(Split(text)))
  }

  /** The loop of the function: strip every line and keep those that survive. */
  method CleanLines(lines: seq<string>) returns (cleaned: seq<string>)
    ensures cleaned == KeptLines(lines)
  {
    cleaned := [];
    for k := 0 to |lines|
      invariant cleaned == KeptLines(lines[..k])
    {
      KeptLinesStep(lines, k);
      var line := Strip(lines[k]);
      if line != [] && |line| > 2 {
        cleaned := cleaned + [line];
      }
    }
    assert lines[..|lines|] == lines;
  }

  /** The function itself: an empty text comes back as it is, any other is cleaned line by line. */
  method CleanRecognizedText(text: string) returns (r: string)
    ensures text == "" ==> r == text
    ensures r == Cleaned(text)
  {
    if text == "" {
      return text;
    }
    var lines := Split(text);
    var cleaned := CleanLines(lines);
    r := Join(cleaned);
  }

  /** One turn of the loop: the stripped line is appended when it survives. */
  lemma KeptLinesStep(lines: seq<string>, k: nat)
    requires k < |lines|
    ensures var line := Strip(lines[k]);
      KeptLines(lines[..k + 1]) == KeptLines(lines[..k]) + if line != [] && |line| > 2 then [line] else []
  {
    ConcatMapStep(KeptOf, lines, k);
  }

  // ---------------------------------------------------------------------------

  /** Cleaning two runs of lines one after the other concatenates what survives of each. */
  lemma KeptLinesAppend(a: seq<string>, b: seq<string>)
    ensures KeptLines(a + b) == KeptLines(a) + KeptLines(b)
  {
    ConcatMapAppend(KeptOf, a, b);
  }

  /** Every output line is the stripped form of some input line and is longer than two characters. */
  lemma KeptLinesSound(lines: seq<string>)
    ensures forall x :: x in KeptLines(lines) ==> Keep(x) && exists l :: l in lines && x == Strip(l)
  {
    ConcatMapSound(KeptOf, lines);
  }

  /** Every input line whose stripped form is longer than two characters gives an output line. */
  lemma KeptLinesComplete(lines: seq<string>)
    ensures forall l :: l in lines && Keep(Strip(l)) ==> Strip(l) in KeptLines(lines)
  {
    ConcatMapComplete(KeptOf, lines);
    forall l | l in lines && Keep(Strip(l)) ensures Strip(l) in KeptLines(lines) {
      assert Strip(l) in KeptOf(l);
    }
  }

  /**
   * A line is in the output exactly when it is the stripped form of some input
   * line and is longer than two characters.
   */
  lemma KeptLinesMembers(lines: seq<string>, x: string)
    ensures x in KeptLines(lines) <==> Keep(x) && exists l :: l in lines && x == Strip(l)
  {
    KeptLinesSound(lines);
    KeptLinesComplete(lines);
  }

  /** Never more lines come out than went in. */
  lemma KeptLinesFewer(lines: seq<string>)
    ensures |KeptLines(lines)| <= |lines|
  {
    ConcatMapShort(KeptOf, lines);
  }

  /**
   * Every surviving line is its own strip (so it neither starts nor ends with
   * whitespace), is longer than two characters, and has no newline when the input
   * lines have none.
   */
  lemma KeptLinesClean(lines: seq<string>)
    requires forall l :: l in lines ==> '\n' !in l
    ensures forall x :: x in KeptLines(lines) ==> Strip(x) == x && |x| > 2 && '\n' !in x
  {
    KeptLinesSound(lines);
    forall x | x in KeptLines(lines) ensures Strip(x) == x && |x| > 2 && '\n' !in x {
      var l :| l in lines && x == Strip(l);
      StripIdempotent(l);
      StripKeepsNoNewline(l);
    }
  }

  /** Lines that are already clean all survive unchanged. */
  lemma KeptLinesFixed(lines: seq<string>)
    requires forall x :: x in lines ==> Strip(x) == x && |x| > 2
    ensures KeptLines(lines) == lines
  {
    ConcatMapIdentity(KeptOf, lines);
  }

  /**
   * The lines of a cleaned non-empty text are exactly the surviving stripped lines,
   * in order, unless none survives and the result is the empty text.
   */
  lemma CleanedLines(text: string)
    requires text != ""
    ensures KeptLines(Split(text)) == [] ==> Cleaned(text) == ""
    ensures KeptLines(Split(text)) != [] ==> Split(Cleaned(text)) == KeptLines(Split(text))
  {
    var kept := KeptLines(Split(text));
    if kept != [] {
      KeptLinesClean(Split(text));
      SplitJoin(kept);
    }
  }

  /** Every line of the cleaned text is stripped and longer than two characters, or the text is empty. */
  lemma CleanedLinesClean(text: string)
    ensures Cleaned(text) == "" || forall x :: x in Split(Cleaned(text)) ==> Strip(x) == x && |x| > 2 && '\n' !in x
  {
    if text != "" {
      CleanedLines(text);
      KeptLinesClean(Split(text));
    }
  }

  /** The cleaned text has at most as many lines as the text it came from. */
  lemma CleanedFewerLines(text: string)
    ensures |Split(Cleaned(text))| <= |Split(text)|
  {
    if text != "" {
      var kept := KeptLines(Split(text));
      KeptLinesFewer(Split(text));
      CleanedLines(text);
      if kept == [] {
        assert Split("") == [""];
      }
    }
  }

  /** Cleaning a cleaned text changes nothing. */
  lemma CleanedIdempotent(text: string)
    ensures Cleaned(Cleaned(text)) == Cleaned(text)
  {
    if text != "" {
      var kept := KeptLines(Split(text));
      CleanedLines(text);
      if kept != [] {
        KeptLinesClean(Split(text));
        KeptLinesFixed(kept);
        assert kept[0] in kept;
        assert Join(kept) != "" by {
          JoinStart(kept);
        }
      }
    }
  }

  /** A join begins with its first line. */
  lemma JoinStart(lines: seq<string>)
    requires |lines| >= 1
    ensures |Join(lines)| >= |lines[0]| && Join(lines)[..|lines[0]|] == lines[0]
  {
  }
}
