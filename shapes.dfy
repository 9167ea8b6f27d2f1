/**
 * What the text `findall` reports for each pattern looks like, stated on the
 * reported string alone, and what the text around a match must be.
 */
module Shapes {
  import opened Wrappers
  import opened Chars
  import opened Text
  import opened Patterns

  /** `e` is the fixed text `lit` up to case. */
  predicate EqualsFolded(e: string, lit: string) {
    |e| == |lit| && LiteralAt(e, 0, lit)
  }

  /** One of the texts `alts`, in any mixture of cases. */
  ghost predicate IsOneOf(e: string, alts: seq<string>) {
    exists a :: a in alts && EqualsFolded(e, a)
  }

  /** One of the twelve genitive month names, in any mixture of cases. */
  ghost predicate IsMonthName(e: string) {
    IsOneOf(e, Months)
  }

  /** Four digits, at least one whitespace character, then `г.` or `Г.`. */
  predicate IsYearAbbrevText(e: string) {
    |e| >= 7 && DigitsAt(e, 0, 4) && All(e[4..|e| - 2], Space) && LiteralAt(e, |e| - 2, "г.")
  }

  /** `n1` digits, a dot, `n2` digits, a dot, four digits. */
  predicate NumericDateSplit(e: string, n1: nat, n2: nat) {
    && |e| == n1 + n2 + 6
    && DigitsAt(e, 0, n1) && LiteralAt(e, n1, ".")
    && DigitsAt(e, n1 + 1, n2) && LiteralAt(e, n1 + n2 + 1, ".")
    && DigitsAt(e, n1 + n2 + 2, 4)
  }

  /** `D.M.YYYY` with one or two digits for the day and for the month. */
  predicate IsNumericDateText(e: string) {
    NumericDateSplit(e, 1, 1) || NumericDateSplit(e, 1, 2) || NumericDateSplit(e, 2, 1) || NumericDateSplit(e, 2, 2)
  }

  /** The abbreviation `lit` up to case, whitespace up to `j`, then only digits (at least one). */
  predicate AbbrevNumberSplit(e: string, lit: string, j: nat) {
    |lit| <= j < |e| && LiteralAt(e, 0, lit) && All(e[|lit|..j], Space) && All(e[j..], Digit)
  }

  ghost predicate IsAbbrevNumber(e: string, lit: string) {
    exists j :: AbbrevNumberSplit(e, lit, j)
  }

  /** `ед.` up to case, whitespace up to `j1`, then an `хр.` code split at `j2` as above. */
  predicate StorageUnitSplit(e: string, j1: nat, j2: nat) {
    3 <= j1 <= |e| && LiteralAt(e, 0, "ед.") && All(e[3..j1], Space) && AbbrevNumberSplit(e[j1..], "хр.", j2)
  }

  ghost predicate IsStorageUnitText(e: string) {
    exists j1, j2 :: StorageUnitSplit(e, j1, j2)
  }

  /**
   * Three runs of Russian letters, each at least two long, separated by non-empty
   * runs of whitespace: `e[..a]`, `e[b..c]` and `e[d..]` are the words.
   */
  predicate NameSplit(e: string, a: nat, b: nat, c: nat, d: nat) {
    && 2 <= a < b && b + 2 <= c < d && d + 2 <= |e|
    && All(e[0..a], Letter) && All(e[a..b], Space) && All(e[b..c], Letter)
    && All(e[c..d], Space) && All(e[d..|e|], Letter)
  }

  ghost predicate IsFullNameText(e: string) {
    exists a, b, c, d :: NameSplit(e, a, b, c, d)
  }

  /** The shape of a text pattern `p` reports. */
  ghost predicate Shape(p: Pattern, e: string) {
    match p
    case DayMonthYear => IsMonthName(e)
    case YearAbbrev => IsYearAbbrevText(e)
    case NumericDate => IsNumericDateText(e)
    case Fond => IsAbbrevNumber(e, "ф.")
    case Opis => IsAbbrevNumber(e, "оп.")
    case Delo => IsAbbrevNumber(e, "д.")
    case FondWord => IsAbbrevNumber(e, "фонд")
    case StorageUnit => IsStorageUnitText(e)
    case FullName => IsFullNameText(e)
  }

  /** An archive pattern, whose trailing `\d+` has no boundary after it. */
  predicate IsArchivePattern(p: Pattern) {
    p.Fond? || p.Opis? || p.Delo? || p.FondWord? || p.StorageUnit?
  }

  /** Every character in `[x, y)` is of class `k`. */
  predicate Span(s: string, x: nat, y: nat, k: CharClass)
    requires x <= y <= |s|
  {
    forall n :: x <= n < y ==> InClass(s[n], k)
  }

  /** Before the month group at `w`: a day of one or two digits from `i`, then whitespace. */
  ghost predicate DayBefore(s: string, i: nat, w: nat)
    requires i <= w <= |s|
  {
    var d := Run(s, i, Digit);
    i + 1 <= d <= i + 2 && d < w && Span(s, d, w, Space)
  }

  /** After the month group, which ends at `x`: whitespace, four digits ending at `e`, then `\b`. */
  ghost predicate YearAfterGroup(s: string, x: nat, e: nat)
    requires x <= e <= |s|
  {
    x + 4 < e && Span(s, x, e - 4, Space) && DigitsAt(s, e - 4, 4) && WordBoundary(s, e)
  }

  /**
   * What the text around a match of `p` must be:
   * - a date starts at `\b`; the first and third date patterns also end at `\b`;
   * - around the group of the first date pattern stand the day and the year;
   * - an archive code's digit run is not followed by another digit (`\d+` is greedy);
   * - a name is not glued to a word character on either side (`\b`).
   */
  ghost predicate Context(p: Pattern, s: string, m: Match)
    requires m.start <= m.next <= |s|
  {
    && (p.DayMonthYear? || p.YearAbbrev? || p.NumericDate? ==> WordBoundary(s, m.start))
    && (p.DayMonthYear? ==>
          m.start <= m.textStart <= m.textEnd <= m.next
          && DayBefore(s, m.start, m.textStart) && YearAfterGroup(s, m.textEnd, m.next))
    && (p.NumericDate? ==> WordBoundary(s, m.next))
    && (IsArchivePattern(p) ==> m.next == |s| || !IsDigit(s[m.next]))
    && (p.FullName? ==> (m.start == 0 || !IsWordChar(s[m.start - 1])) && (m.next == |s| || !IsWordChar(s[m.next])))
  }

  // ---------------------------------------------------------------------------

  /** A literal found in `s` is, as a slice, the literal up to case. */
  lemma LiteralSlice(s: string, w: nat, lit: string)
    requires LiteralAt(s, w, lit)
    ensures EqualsFolded(s[w..w + |lit|], lit)
  {
    var e := s[w..w + |lit|];
    forall n | 0 <= n < |lit| ensures Fold(e[n]) == lit[n] {
      assert e[n] == s[w + n];
    }
  }

  /** A literal found in `s` is found at the shifted position in a slice around it. */
  lemma LiteralShift(s: string, i: nat, f: nat, w: nat, lit: string)
    requires LiteralAt(s, w, lit) && i <= w && w + |lit| <= f <= |s|
    ensures LiteralAt(s[i..f], w - i, lit)
  {
    forall n | 0 <= n < |lit| ensures Fold(s[i..f][w - i + n]) == lit[n] {
      assert s[i..f][w - i + n] == s[w + n];
    }
  }

  /** The characters a run passes over, as a slice. */
  lemma RunAll(s: string, i: nat, k: CharClass)
    requires i <= |s|
    ensures All(s[i..Run(s, i, k)], k)
  {
    var j := Run(s, i, k);
    forall n | 0 <= n < j - i ensures InClass(s[i..j][n], k) {
      assert s[i..j][n] == s[i + n];
    }
  }

  /** A slice of a slice is a slice. */
  lemma SliceOfSlice(s: string, i: nat, f: nat, x: nat, y: nat)
    requires i + y <= f <= |s| && x <= y
    ensures s[i..f][x..y] == s[i + x..i + y]
  {
    forall n | 0 <= n < y - x ensures s[i..f][x..y][n] == s[i + x..i + y][n] {
      assert s[i..f][x..y][n] == s[i..f][x + n];
    }
  }

  lemma MonthFromShape(s: string, i: nat, w: nat, alts: seq<string>)
    requires i < w <= |s| && (forall a :: a in alts ==> a != []) && MonthFrom(s, i, w, alts).Some?
    ensures var m := MonthFrom(s, i, w, alts).value; IsOneOf(s[m.textStart..m.textEnd], alts)
  {
    var m := MonthFrom(s, i, w, alts).value;
    var a :| a in alts && m.textEnd == w + |a| && LiteralAt(s, w, a);
    LiteralSlice(s, w, a);
  }

  lemma DayMonthYearShape(s: string, i: nat)
    requires i <= |s| && DayMonthYearAt(s, i).Some?
    ensures var m := DayMonthYearAt(s, i).value; IsMonthName(s[m.textStart..m.textEnd])
  {
    assert A: forall a :: a in Months ==> a != [];
    assert B: DayMonthYearAt(s, i) == DayMonthYearIn(s, i, Months);
    DayMonthYearInShape(s, i, Months);
  }

  lemma DayMonthYearInShape(s: string, i: nat, alts: seq<string>)
    requires i <= |s| && (forall a :: a in alts ==> a != []) && DayMonthYearIn(s, i, alts).Some?
    ensures var m := DayMonthYearIn(s, i, alts).value; IsOneOf(s[m.textStart..m.textEnd], alts)
  {
    var n := if DayMonthYearWith(s, i, 2, alts).Some? then 2 else 1;
    MonthFromShape(s, i, Run(s, i + n, Space), alts);
  }

  lemma YearAbbrevShape(s: string, i: nat)
    requires i <= |s| && YearAbbrevAt(s, i).Some?
    ensures var m := YearAbbrevAt(s, i).value; IsYearAbbrevText(s[m.textStart..m.textEnd])
  {
    var w := Run(s, i + 4, Space);
    var e := s[i..w + 2];
    RunAll(s, i + 4, Space);
    SliceOfSlice(s, i, w + 2, 4, w - i);
    forall n | 0 <= n < 4 ensures IsDigit(e[n]) { assert e[n] == s[i + n]; }
    forall n | 0 <= n < 2 ensures Fold(e[w - i + n]) == "г."[n] { assert e[w - i + n] == s[w + n]; }
  }

  lemma NumericDateWithShape(s: string, i: nat, n1: nat, n2: nat)
    requires i <= |s| && NumericDateWith(s, i, n1, n2).Some?
    ensures var m := NumericDateWith(s, i, n1, n2).value; NumericDateSplit(s[m.textStart..m.textEnd], n1, n2)
  {
    var e := s[i..i + n1 + n2 + 6];
    assert forall n :: 0 <= n < |e| ==> e[n] == s[i + n];
  }

  lemma NumericDateShape(s: string, i: nat)
    requires i <= |s| && NumericDateAt(s, i).Some?
    ensures var m := NumericDateAt(s, i).value; IsNumericDateText(s[m.textStart..m.textEnd])
  {
    if NumericDateWith(s, i, 2, 2).Some? {
      NumericDateWithShape(s, i, 2, 2);
    } else if NumericDateWith(s, i, 2, 1).Some? {
      NumericDateWithShape(s, i, 2, 1);
    } else if NumericDateWith(s, i, 1, 2).Some? {
      NumericDateWithShape(s, i, 1, 2);
    } else {
      NumericDateWithShape(s, i, 1, 1);
    }
  }

  lemma AbbrevNumberShape(s: string, i: nat, lit: string)
    requires i <= |s| && AbbrevNumberAt(s, i, lit).Some?
    ensures var m := AbbrevNumberAt(s, i, lit).value;
      IsAbbrevNumber(s[m.textStart..m.textEnd], lit) && (m.next == |s| || !IsDigit(s[m.next]))
  {
    var j := Run(s, i + |lit|, Space);
    var d := Run(s, j, Digit);
    var e := s[i..d];
    LiteralShift(s, i, d, i, lit);
    RunAll(s, i + |lit|, Space);
    SliceOfSlice(s, i, d, |lit|, j - i);
    RunAll(s, j, Digit);
    SliceOfSlice(s, i, d, j - i, d - i);
    assert AbbrevNumberSplit(e, lit, j - i);
  }

  lemma StorageUnitShape(s: string, i: nat)
    requires i <= |s| && StorageUnitAt(s, i).Some?
    ensures var m := StorageUnitAt(s, i).value;
      IsStorageUnitText(s[m.textStart..m.textEnd]) && (m.next == |s| || !IsDigit(s[m.next]))
  {
    var j1 := Run(s, i + 3, Space);
    var inner := AbbrevNumberAt(s, j1, "хр.").value;
    AbbrevNumberShape(s, j1, "хр.");
    var d := inner.next;
    var e := s[i..d];
    var j2 :| AbbrevNumberSplit(s[j1..d], "хр.", j2);
    LiteralShift(s, i, d, i, "ед.");
    RunAll(s, i + 3, Space);
    SliceOfSlice(s, i, d, 3, j1 - i);
    assert e[j1 - i..] == s[j1..d];
    assert StorageUnitSplit(e, j1 - i, j2);
  }

  lemma FullNameSplit(s: string, i: nat)
    requires i <= |s| && FullNameAt(s, i).Some?
    ensures var m := FullNameAt(s, i).value; IsFullNameText(s[m.textStart..m.textEnd])
  {
    var a := Run(s, i, Letter);
    var b := Run(s, a, Space);
    var c := Run(s, b, Letter);
    var d := Run(s, c, Space);
    var f := Run(s, d, Letter);
    assert FullNameAt(s, i) == Some(Match(i, i, f, f));
    RunAll(s, i, Letter);
    RunAll(s, a, Space);
    RunAll(s, b, Letter);
    RunAll(s, c, Space);
    RunAll(s, d, Letter);
    RunsNameSplit(s, i, a, b, c, d, f);
  }

  /** Five consecutive runs of letters and whitespace, long enough, make a name. */
  lemma RunsNameSplit(s: string, i: nat, a: nat, b: nat, c: nat, d: nat, f: nat)
    requires i + 2 <= a < b && b + 2 <= c < d && d + 2 <= f <= |s|
    requires All(s[i..a], Letter) && All(s[a..b], Space) && All(s[b..c], Letter)
    requires All(s[c..d], Space) && All(s[d..f], Letter)
    ensures NameSplit(s[i..f], a - i, b - i, c - i, d - i)
  {
    AllInSlice(s, i, f, i, a, Letter);
    AllInSlice(s, i, f, a, b, Space);
    AllInSlice(s, i, f, b, c, Letter);
    AllInSlice(s, i, f, c, d, Space);
    AllInSlice(s, i, f, d, f, Letter);
  }

  /** A piece `s[x..y]` all of class `k`, seen inside the slice `s[i..f]`. */
  lemma AllInSlice(s: string, i: nat, f: nat, x: nat, y: nat, k: CharClass)
    requires i <= x <= y <= f <= |s| && All(s[x..y], k)
    ensures All(s[i..f][x - i..y - i], k)
  {
    SliceOfSlice(s, i, f, x - i, y - i);
  }

  lemma FullNameShape(s: string, i: nat)
    requires i <= |s| && FullNameAt(s, i).Some?
    ensures var m := FullNameAt(s, i).value;
      IsFullNameText(s[m.textStart..m.textEnd])
      && (m.start == 0 || !IsWordChar(s[m.start - 1])) && (m.next == |s| || !IsWordChar(s[m.next]))
  {
    FullNameSplit(s, i);
    var f := FullNameAt(s, i).value.next;
    ClassesDisjoint(s[i]);
    ClassesDisjoint(s[f - 1]);
  }

  /** Every text a pattern reports has that pattern's shape, and its surroundings are right. */
  lemma MatchShape(p: Pattern, s: string, i: nat)
    requires i <= |s| && MatchAt(p, s, i).Some?
    ensures var m := MatchAt(p, s, i).value; Shape(p, s[m.textStart..m.textEnd]) && Context(p, s, m)
  {
    if IsArchivePattern(p) {
      ArchiveMatchShape(p, s, i);
    } else if p.FullName? {
      FullNameShape(s, i);
    } else {
      DateMatchShape(p, s, i);
    }
  }

  lemma DateMatchShape(p: Pattern, s: string, i: nat)
    requires i <= |s| && MatchAt(p, s, i).Some? && (p.DayMonthYear? || p.YearAbbrev? || p.NumericDate?)
    ensures var m := MatchAt(p, s, i).value; Shape(p, s[m.textStart..m.textEnd]) && Context(p, s, m)
  {
    match p
    case DayMonthYear =>
      DayMonthYearShape(s, i);
      DayMonthYearContext(s, i);
    case YearAbbrev =>
      YearAbbrevShape(s, i);
      YearAbbrevContext(s, i);
    case NumericDate =>
      NumericDateShape(s, i);
      NumericDateContext(s, i);
  }

  // ---------------------------------------------------------------------------
  // The surroundings of the date matches.

  lemma YearAfterContext(s: string, j: nat)
    requires j <= |s| && YearAfter(s, j).Some?
    ensures YearAfter(s, j).value <= |s| && YearAfterGroup(s, j, YearAfter(s, j).value)
  {
  }

  lemma MonthTryContext(s: string, i: nat, w: nat, a: string)
    requires i < w <= |s| && a != [] && MonthTry(s, i, w, a).Some?
    ensures var m := MonthTry(s, i, w, a).value; YearAfterGroup(s, m.textEnd, m.next)
  {
    YearAfterContext(s, w + |a|);
  }

  /** Whichever month the alternation takes, the year and `\b` follow it. */
  lemma {:induction false} MonthFromContext(s: string, i: nat, w: nat, alts: seq<string>)
    requires i < w <= |s| && (forall a :: a in alts ==> a != []) && MonthFrom(s, i, w, alts).Some?
    ensures var m := MonthFrom(s, i, w, alts).value; YearAfterGroup(s, m.textEnd, m.next)
    decreases |alts|
  {
    assert alts[0] in alts && forall a :: a in alts[1..] ==> a in alts;
    if MonthTry(s, i, w, alts[0]).Some? {
      MonthTryContext(s, i, w, alts[0]);
    } else {
      MonthFromContext(s, i, w, alts[1..]);
    }
  }

  lemma DayMonthYearWithContext(s: string, i: nat, n: nat, alts: seq<string>)
    requires i <= |s| && (forall a :: a in alts ==> a != []) && DayMonthYearWith(s, i, n, alts).Some?
    ensures var m := DayMonthYearWith(s, i, n, alts).value;
      DigitsAt(s, i, n) && i + n < m.textStart && Span(s, i + n, m.textStart, Space)
      && YearAfterGroup(s, m.textEnd, m.next)
  {
    MonthFromContext(s, i, Run(s, i + n, Space), alts);
  }

  lemma DayMonthYearInContext(s: string, i: nat, alts: seq<string>)
    requires i <= |s| && (forall a :: a in alts ==> a != []) && DayMonthYearIn(s, i, alts).Some?
    ensures var m := DayMonthYearIn(s, i, alts).value;
      WordBoundary(s, i) && DayBefore(s, i, m.textStart) && YearAfterGroup(s, m.textEnd, m.next)
  {
    var n := if DayMonthYearWith(s, i, 2, alts).Some? then 2 else 1;
    assert DayMonthYearIn(s, i, alts) == DayMonthYearWith(s, i, n, alts);
    DayMonthYearWithContext(s, i, n, alts);
    ClassesDisjoint(s[i + n]);
    RunUnique(s, i, i + n, Digit);
  }

  /**
   * The first date pattern starts at `\b`, has the day and whitespace before its
   * group and whitespace, the year and `\b` after it.
   */
  lemma DayMonthYearContext(s: string, i: nat)
    requires i <= |s| && DayMonthYearAt(s, i).Some?
    ensures var m := DayMonthYearAt(s, i).value;
      WordBoundary(s, i) && DayBefore(s, i, m.textStart) && YearAfterGroup(s, m.textEnd, m.next)
  {
    assert A: forall a :: a in Months ==> a != [];
    assert B: DayMonthYearAt(s, i) == DayMonthYearIn(s, i, Months);
    DayMonthYearInContext(s, i, Months);
  }

  /** The second date pattern starts at `\b`. */
  lemma YearAbbrevContext(s: string, i: nat)
    requires i <= |s| && YearAbbrevAt(s, i).Some?
    ensures WordBoundary(s, i)
  {
  }

  /** The third date pattern starts and ends at `\b`. */
  lemma NumericDateContext(s: string, i: nat)
    requires i <= |s| && NumericDateAt(s, i).Some?
    ensures WordBoundary(s, i) && WordBoundary(s, NumericDateAt(s, i).value.next)
  {
  }

  lemma ArchiveMatchShape(p: Pattern, s: string, i: nat)
    requires i <= |s| && MatchAt(p, s, i).Some? && IsArchivePattern(p)
    ensures var m := MatchAt(p, s, i).value; Shape(p, s[m.textStart..m.textEnd]) && (m.next == |s| || !IsDigit(s[m.next]))
  {
    match p
    case Fond => AbbrevNumberShape(s, i, "ф.");
    case Opis => AbbrevNumberShape(s, i, "оп.");
    case Delo => AbbrevNumberShape(s, i, "д.");
    case FondWord => AbbrevNumberShape(s, i, "фонд");
    case StorageUnit => StorageUnitShape(s, i);
  }
}
