/**
 * The converse of the shape lemmas: whenever the text at a position has the form a
 * pattern describes, the recogniser matches there, and matches exactly that much.
 * Together with `Shapes` this pins each recogniser down from both sides.
 */
module Completeness {
  import opened Wrappers
  import opened Chars
  import opened Text
  import opened Patterns
  import opened Scanning
  import opened Shapes


  /** One character of a literal found at `i`. */
  lemma LiteralChar(s: string, i: nat, lit: string, n: nat)
    requires LiteralAt(s, i, lit) && n < |lit|
    ensures i + n < |s| && Fold(s[i + n]) == lit[n]
  {
  }

  /** A slice all of class `k` is a span of class `k`. */
  lemma SpanOfSlice(s: string, x: nat, y: nat, k: CharClass)
    requires x <= y <= |s| && All(s[x..y], k)
    ensures Span(s, x, y, k)
  {
    forall n | x <= n < y ensures InClass(s[n], k) {
      assert s[n] == s[x..y][n - x];
    }
  }

  /** A slice equal to `lit` up to case is an occurrence of `lit`. */
  lemma LiteralOfSlice(s: string, w: nat, lit: string)
    requires w + |lit| <= |s| && EqualsFolded(s[w..w + |lit|], lit)
    ensures LiteralAt(s, w, lit)
  {
    forall n | 0 <= n < |lit| ensures Fold(s[w + n]) == lit[n] {
      assert s[w + n] == s[w..w + |lit|][n];
    }
  }

  /** A literal that does not begin with whitespace does not occur where whitespace is. */
  lemma LiteralNotSpace(s: string, w: nat, lit: string)
    requires LiteralAt(s, w, lit) && lit != [] && !IsSpace(lit[0])
    ensures w < |s| && !IsSpace(s[w])
  {
    LiteralChar(s, w, lit, 0);
    FoldKeepsClasses(s[w]);
  }

  // ---------------------------------------------------------------------------
  // Dates (backend/main.py:88-90).

  /** `\s+\d{4}\b` is found whenever whitespace, four digits and a boundary follow `j`. */
  lemma YearAfterComplete(s: string, j: nat, y: nat)
    requires j < y <= |s| && Span(s, j, y, Space)
    requires DigitsAt(s, y, 4) && WordBoundary(s, y + 4)
    ensures YearAfter(s, j) == Some(y + 4)
  {
    ClassesDisjoint(s[y]);
    RunUnique(s, j, y, Space);
  }

  /** The alternation takes the first alternative with which the rest of the pattern matches. */
  lemma {:induction false} MonthFromFirst(s: string, i: nat, w: nat, alts: seq<string>, k: nat)
    requires i < w <= |s|
    requires forall j :: 0 <= j < |alts| ==> alts[j] != []
    requires k < |alts| && MonthTry(s, i, w, alts[k]).Some?
    requires forall j :: 0 <= j < k ==> MonthTry(s, i, w, alts[j]).None?
    ensures MonthFrom(s, i, w, alts) == MonthTry(s, i, w, alts[k])
    decreases k
  {
    assert alts[0] in alts && forall a :: a in alts ==> a != [];
    if k > 0 {
      MonthFromFirst(s, i, w, alts[1..], k - 1);
    }
  }

  /** One alternative `a` of the alternation at `w`, then whitespace, four digits and a boundary. */
  lemma MonthTryComplete(s: string, i: nat, w: nat, a: string, y: nat)
    requires i < w <= |s| && a != [] && LiteralAt(s, w, a)
    requires w + |a| < y <= |s| && Span(s, w + |a|, y, Space)
    requires DigitsAt(s, y, 4) && WordBoundary(s, y + 4)
    ensures MonthTry(s, i, w, a) == Some(Match(i, w, w + |a|, y + 4))
  {
    YearAfterComplete(s, w + |a|, y);
  }

  /**
   * When only the alternative `a` occurs at `w`, the alternation takes it, wherever
   * it stands among the alternatives.
   */
  lemma {:induction false} MonthFromOnly(s: string, i: nat, w: nat, alts: seq<string>, a: string)
    requires i < w <= |s| && forall b :: b in alts ==> b != []
    requires a in alts && MonthTry(s, i, w, a).Some?
    requires forall b :: b in alts && b != a ==> !LiteralAt(s, w, b)
    ensures MonthFrom(s, i, w, alts) == MonthTry(s, i, w, a)
    decreases |alts|
  {
    assert alts[0] in alts && forall b :: b in alts[1..] ==> b in alts;
    if alts[0] != a {
      assert a in alts[1..];
      MonthFromOnly(s, i, w, alts[1..], a);
    }
  }

  /** Once the day and the whitespace after it are found, what remains is the alternation. */
  lemma DayMonthYearWithStep(s: string, i: nat, alts: seq<string>, n: nat, w: nat)
    requires forall a :: a in alts ==> a != []
    requires i + n < w <= |s| && DigitsAt(s, i, n) && Run(s, i + n, Space) == w
    ensures DayMonthYearWith(s, i, n, alts) == MonthFrom(s, i, w, alts)
  {
  }

  /** `n` digits and whitespace up to a non-space at `w`, where the alternation matches. */
  lemma DayMonthYearWithComplete(s: string, i: nat, alts: seq<string>, n: nat, w: nat, m: Match)
    requires forall a :: a in alts ==> a != []
    requires i + n < w < |s| && DigitsAt(s, i, n) && Span(s, i + n, w, Space) && !IsSpace(s[w])
    requires MonthFrom(s, i, w, alts) == Some(m)
    ensures DayMonthYearWith(s, i, n, alts) == Some(m)
  {
    RunUnique(s, i + n, w, Space);
    DayMonthYearWithStep(s, i, alts, n, w);
  }

  /** The day is taken as two digits when that matches. */
  lemma DayMonthYearInTwo(s: string, i: nat, alts: seq<string>, m: Match)
    requires forall a :: a in alts ==> a != []
    requires i <= |s| && WordBoundary(s, i) && DayMonthYearWith(s, i, 2, alts) == Some(m)
    ensures DayMonthYearIn(s, i, alts) == Some(m)
  {
  }

  /** The day is taken as one digit when two digits are not there. */
  lemma DayMonthYearInOne(s: string, i: nat, alts: seq<string>, m: Match)
    requires forall a :: a in alts ==> a != []
    requires i <= |s| && WordBoundary(s, i) && !DigitsAt(s, i, 2) && DayMonthYearWith(s, i, 1, alts) == Some(m)
    ensures DayMonthYearIn(s, i, alts) == Some(m)
  {
    assert DayMonthYearWith(s, i, 2, alts) == None;
  }

  /** The same after a boundary, with a day of one or two digits. */
  lemma DayMonthYearInComplete(s: string, i: nat, alts: seq<string>, n: nat, w: nat, m: Match)
    requires forall a :: a in alts ==> a != []
    requires 1 <= n <= 2 && i + n < w < |s| && WordBoundary(s, i)
    requires DigitsAt(s, i, n) && Span(s, i + n, w, Space) && !IsSpace(s[w])
    requires MonthFrom(s, i, w, alts) == Some(m)
    ensures DayMonthYearIn(s, i, alts) == Some(m)
  {
    DayMonthYearWithComplete(s, i, alts, n, w, m);
    if n == 1 {
      ClassesDisjoint(s[i + 1]);
      assert !DigitsAt(s, i, 2);
      DayMonthYearInOne(s, i, alts, m);
    } else {
      DayMonthYearInTwo(s, i, alts, m);
    }
  }

  /** No month name is empty. */
  lemma MonthsNonEmpty()
    ensures forall a :: a in Months ==> a != []
  {
  }

  /** No month name begins with whitespace. */
  lemma MonthNotSpace(a: string)
    requires a in Months
    ensures a != [] && !IsSpace(a[0])
  {
  }

  /** The first three letters tell the month names apart. */
  lemma MonthKey(a: string, b: string)
    requires a in Months && b in Months && |a| >= 3 && |b| >= 3
    requires a[0] == b[0] && a[1] == b[1] && a[2] == b[2]
    ensures a == b
  {
  }

  /** Two month names that both occur at `w` are the same name. */
  lemma MonthNamesDiffer(s: string, w: nat, a: string, b: string)
    requires a in Months && b in Months && LiteralAt(s, w, a) && LiteralAt(s, w, b)
    ensures a == b
  {
    assert |a| >= 3 && |b| >= 3;
    LiteralChar(s, w, a, 0);
    LiteralChar(s, w, a, 1);
    LiteralChar(s, w, a, 2);
    LiteralChar(s, w, b, 0);
    LiteralChar(s, w, b, 1);
    LiteralChar(s, w, b, 2);
    MonthKey(a, b);
  }

  /** Where the month name `a` occurs, no other month name does. */
  lemma MonthOnly(s: string, w: nat, a: string)
    requires a in Months && LiteralAt(s, w, a)
    ensures forall b :: b in Months && b != a ==> !LiteralAt(s, w, b)
  {
    forall b | b in Months && b != a
      ensures !LiteralAt(s, w, b)
    {
      if LiteralAt(s, w, b) {
        MonthNamesDiffer(s, w, a, b);
      }
    }
  }

  /**
   * The text at `i` reads: a boundary, a day of `n` digits, whitespace up to `w`,
   * the alternative `a` in any case, whitespace up to `y`, four digits and a
   * boundary.
   */
  predicate DayMonthYearForm(s: string, i: nat, n: nat, w: nat, a: string, y: nat) {
    && 1 <= n <= 2 && i + n < w <= |s| && WordBoundary(s, i) && DigitsAt(s, i, n)
    && Span(s, i + n, w, Space) && LiteralAt(s, w, a)
    && w + |a| < y <= |s| && Span(s, w + |a|, y, Space)
    && DigitsAt(s, y, 4) && WordBoundary(s, y + 4)
  }

  /**
   * `DayMonthYearIn` over any alternatives: the form with an alternative `a` that
   * does not begin with whitespace, and no other alternative at `w`, is a match
   * whose group is `a`'s occurrence.
   */
  lemma DayMonthYearFormComplete(s: string, i: nat, alts: seq<string>, n: nat, w: nat, a: string, y: nat)
    requires forall b :: b in alts ==> b != []
    requires a in alts && a != [] && !IsSpace(a[0])
    requires forall b :: b in alts && b != a ==> !LiteralAt(s, w, b)
    requires DayMonthYearForm(s, i, n, w, a, y)
    ensures DayMonthYearIn(s, i, alts) == Some(Match(i, w, w + |a|, y + 4))
  {
    LiteralNotSpace(s, w, a);
    MonthTryComplete(s, i, w, a, y);
    MonthFromOnly(s, i, w, alts, a);
    DayMonthYearInComplete(s, i, alts, n, w, Match(i, w, w + |a|, y + 4));
  }

  /** Pattern 1 tries the twelve month names. */
  lemma DayMonthYearAtIn(s: string, i: nat)
    requires i <= |s|
    ensures DayMonthYearAt(s, i) == DayMonthYearIn(s, i, Months)
  {
  }

  /**
   * Date pattern 1: a boundary, one or two digits, whitespace, a month name in any
   * case, whitespace, four digits and a boundary make a match whose group is the
   * month name.
   */
  lemma DayMonthYearComplete(s: string, i: nat, n: nat, w: nat, a: string, y: nat)
    requires a in Months && DayMonthYearForm(s, i, n, w, a, y)
    ensures DayMonthYearAt(s, i) == Some(Match(i, w, w + |a|, y + 4))
  {
    MonthsNonEmpty();
    MonthNotSpace(a);
    MonthOnly(s, w, a);
    DayMonthYearFormComplete(s, i, Months, n, w, a, y);
    DayMonthYearAtIn(s, i);
  }

  /** Date pattern 2: a boundary, four digits, whitespace and `г.` in either case make a match. */
  lemma YearAbbrevComplete(s: string, i: nat, w: nat)
    requires i + 4 < w <= |s| && WordBoundary(s, i) && DigitsAt(s, i, 4)
    requires Span(s, i + 4, w, Space) && LiteralAt(s, w, "г.")
    ensures YearAbbrevAt(s, i) == Some(Match(i, i, w + 2, w + 2))
  {
    LiteralChar(s, w, "г.", 0);
    FoldKeepsClasses(s[w]);
    RunUnique(s, i + 4, w, Space);
  }

  /**
   * Date pattern 3: a boundary, a day of `n1` digits, a dot, a month of `n2`
   * digits, a dot, four digits and a boundary make a match, whichever of the
   * four digit counts it takes.
   */
  lemma NumericDateComplete(s: string, i: nat, n1: nat, n2: nat)
    requires 1 <= n1 <= 2 && 1 <= n2 <= 2 && i + n1 + n2 + 6 <= |s|
    requires WordBoundary(s, i) && DigitsAt(s, i, n1) && LiteralAt(s, i + n1, ".")
    requires DigitsAt(s, i + n1 + 1, n2) && LiteralAt(s, i + n1 + n2 + 1, ".")
    requires DigitsAt(s, i + n1 + n2 + 2, 4) && WordBoundary(s, i + n1 + n2 + 6)
    ensures NumericDateAt(s, i) == Some(Match(i, i, i + n1 + n2 + 6, i + n1 + n2 + 6))
  {
    LiteralChar(s, i + n1, ".", 0);
    LiteralChar(s, i + n1 + n2 + 1, ".", 0);
    FoldKeepsClasses(s[i + n1]);
    FoldKeepsClasses(s[i + n1 + n2 + 1]);
    assert NumericDateWith(s, i, n1, n2) == Some(Match(i, i, i + n1 + n2 + 6, i + n1 + n2 + 6));
    if n1 == 1 {
      assert !DigitsAt(s, i, 2);
    }
    if n2 == 1 {
      assert !DigitsAt(s, i + n1 + 1, 2);
    }
  }

  // ---------------------------------------------------------------------------
  // Archive references (backend/main.py:94-98).

  /** The abbreviation `lit`, optional whitespace and a maximal digit run make a match. */
  lemma AbbrevNumberComplete(s: string, i: nat, lit: string, j: nat, d: nat)
    requires i <= |s| && LiteralAt(s, i, lit) && i + |lit| <= j < d <= |s|
    requires Span(s, i + |lit|, j, Space) && Span(s, j, d, Digit)
    requires d == |s| || !IsDigit(s[d])
    ensures AbbrevNumberAt(s, i, lit) == Some(Match(i, i, d, d))
  {
    ClassesDisjoint(s[j]);
    RunUnique(s, i + |lit|, j, Space);
    RunUnique(s, j, d, Digit);
  }

  /** `StorageUnitIn` for any second abbreviation that does not begin with whitespace. */
  lemma StorageUnitInComplete(s: string, i: nat, lead: string, lit: string, j: nat, k: nat, d: nat)
    requires lit != [] && !IsSpace(lit[0])
    requires i <= |s| && LiteralAt(s, i, lead) && i + |lead| <= j <= |s| && Span(s, i + |lead|, j, Space)
    requires LiteralAt(s, j, lit) && j + |lit| <= k < d <= |s|
    requires Span(s, j + |lit|, k, Space) && Span(s, k, d, Digit)
    requires d == |s| || !IsDigit(s[d])
    ensures StorageUnitIn(s, i, lead, lit) == Some(Match(i, i, d, d))
  {
    LiteralChar(s, j, lit, 0);
    FoldKeepsClasses(s[j]);
    RunUnique(s, i + |lead|, j, Space);
    AbbrevNumberComplete(s, j, lit, k, d);
  }

  /** The storage-unit pattern: `ед.`, optional whitespace, `хр.`, optional whitespace and a number. */
  lemma StorageUnitComplete(s: string, i: nat, j: nat, k: nat, d: nat)
    requires i <= |s| && LiteralAt(s, i, "ед.") && i + 3 <= j <= |s| && Span(s, i + 3, j, Space)
    requires LiteralAt(s, j, "хр.") && j + 3 <= k < d <= |s|
    requires Span(s, j + 3, k, Space) && Span(s, k, d, Digit)
    requires d == |s| || !IsDigit(s[d])
    ensures StorageUnitAt(s, i) == Some(Match(i, i, d, d))
  {
    StorageUnitInComplete(s, i, "ед.", "хр.", j, k, d);
  }

  // ---------------------------------------------------------------------------
  // Full names (backend/main.py:102).

  /**
   * Three runs of at least two Russian letters each, in any case, separated by
   * whitespace of any kind (newlines included) and bounded by word boundaries,
   * make a match.
   */
  lemma FullNameComplete(s: string, i: nat, a: nat, b: nat, c: nat, d: nat, e: nat)
    requires i + 2 <= a < b && b + 2 <= c < d && d + 2 <= e <= |s|
    requires Span(s, i, a, Letter) && Span(s, a, b, Space) && Span(s, b, c, Letter)
    requires Span(s, c, d, Space) && Span(s, d, e, Letter)
    requires WordBoundary(s, i) && WordBoundary(s, e)
    ensures FullNameAt(s, i) == Some(Match(i, i, e, e))
  {
    ClassesDisjoint(s[a]);
    ClassesDisjoint(s[b]);
    ClassesDisjoint(s[c]);
    ClassesDisjoint(s[d]);
    ClassesDisjoint(s[e - 1]);
    if e < |s| {
      ClassesDisjoint(s[e]);
    }
    RunUnique(s, i, a, Letter);
    RunUnique(s, a, b, Space);
    RunUnique(s, b, c, Letter);
    RunUnique(s, c, d, Space);
    RunUnique(s, d, e, Letter);
  }

  // ---------------------------------------------------------------------------
  // Whole-text matches and worked examples.

  /** A match at the start that runs to the end of the text is all `findall` reports. */
  lemma FindAllWhole(p: Pattern, s: string, m: Match)
    requires MatchAt(p, s, 0) == Some(m) && m.next == |s|
    ensures FindAll(p, s) == [s[m.textStart..m.textEnd]]
  {
    var f := PatternMatcher(p);
    assert |s| > 0 && f(s, 0) == Some(m);
    assert Scan(f, s, 0) == [m] + Scan(f, s, |s|);
  }

  /** The slices of a text made of five pieces. */
  lemma FivePieces(p1: string, p2: string, p3: string, p4: string, p5: string)
    ensures var s := p1 + p2 + p3 + p4 + p5;
      var a, b, c, d := |p1|, |p1| + |p2|, |p1| + |p2| + |p3|, |p1| + |p2| + |p3| + |p4|;
      s[0..a] == p1 && s[a..b] == p2 && s[b..c] == p3 && s[c..d] == p4 && s[d..|s|] == p5
  {
  }

  /**
   * Three words of at least two Russian letters each, in any case, separated by
   * any whitespace, newlines included: the whole text matches the name pattern.
   */
  lemma NameTextMatch(u: string, sp1: string, v: string, sp2: string, w: string)
    requires |u| >= 2 && |v| >= 2 && |w| >= 2 && All(u, Letter) && All(v, Letter) && All(w, Letter)
    requires sp1 != [] && sp2 != [] && All(sp1, Space) && All(sp2, Space)
    ensures var s := u + sp1 + v + sp2 + w; FullNameAt(s, 0) == Some(Match(0, 0, |s|, |s|))
  {
    var s := u + sp1 + v + sp2 + w;
    var a := |u|;
    var b := a + |sp1|;
    var c := b + |v|;
    var d := c + |sp2|;
    FivePieces(u, sp1, v, sp2, w);
    SpanOfSlice(s, 0, a, Letter);
    SpanOfSlice(s, a, b, Space);
    SpanOfSlice(s, b, c, Letter);
    SpanOfSlice(s, c, d, Space);
    SpanOfSlice(s, d, |s|, Letter);
    ClassesDisjoint(s[0]);
    FullNameComplete(s, 0, a, b, c, d, |s|);
  }

  /** ... and so `findall` reports the whole text as one name. */
  lemma NameTextComplete(u: string, sp1: string, v: string, sp2: string, w: string)
    requires |u| >= 2 && |v| >= 2 && |w| >= 2 && All(u, Letter) && All(v, Letter) && All(w, Letter)
    requires sp1 != [] && sp2 != [] && All(sp1, Space) && All(sp2, Space)
    ensures FindAll(FullName, u + sp1 + v + sp2 + w) == [u + sp1 + v + sp2 + w]
  {
    var s := u + sp1 + v + sp2 + w;
    NameTextMatch(u, sp1, v, sp2, w);
    FindAllWhole(FullName, s, Match(0, 0, |s|, |s|));
    assert s[0..|s|] == s;
  }

  /** The text "15 марта 1925" has the shape of the first date pattern. */
  lemma MonthGroupForm()
    ensures DayMonthYearForm("15 марта 1925", 0, 2, 3, "марта", 9)
  {
    var s := "15 марта 1925";
    assert Span(s, 2, 3, Space) && Span(s, 8, 9, Space);
    assert LiteralAt(s, 3, "марта");
  }

  /** The first date pattern matches the whole of "15 марта 1925", reporting "марта". */
  lemma MonthGroupMatch()
    ensures DayMonthYearAt("15 марта 1925", 0) == Some(Match(0, 3, 8, 13))
  {
    MonthGroupForm();
    DayMonthYearComplete("15 марта 1925", 0, 2, 3, "марта", 9);
  }

  /** The month of a whole date: `findall` with the first date pattern gives ["марта"]. */
  lemma MonthGroupText(s: string)
    requires s == "15 марта 1925"
    ensures FindAll(DayMonthYear, s) == ["марта"]
  {
    MonthGroupMatch();
    FindAllWhole(DayMonthYear, s, Match(0, 3, 8, 13));
    MonthGroupSlice(s);
  }

  lemma MonthGroupSlice(s: string)
    requires s == "15 марта 1925"
    ensures s[3..8] == "марта"
  {
    assert s[3..8] == [s[3], s[4], s[5], s[6], s[7]];
  }

  lemma MonthGroupExample()
    ensures FindAll(DayMonthYear, "15 марта 1925") == ["марта"]
  {
    MonthGroupText("15 марта 1925");
  }

  /** A full name in lower case, split across two lines, is still one match. */
  lemma LowerCaseNameText(s: string)
    requires s == "иванов петр\nсергеевич"
    ensures FindAll(FullName, s) == [s]
  {
    LowerCaseNamePieces(s);
    NameTextComplete("иванов", " ", "петр", "\n", "сергеевич");
  }

  lemma LowerCaseNamePieces(s: string)
    requires s == "иванов петр\nсергеевич"
    ensures s == "иванов" + " " + "петр" + "\n" + "сергеевич"
  {
  }

  lemma LowerCaseNameExample()
    ensures FindAll(FullName, "иванов петр\nсергеевич") == ["иванов петр\nсергеевич"]
  {
    LowerCaseNameText("иванов петр\nсергеевич");
  }
}
