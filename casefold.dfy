/**
 * `re.IGNORECASE`: every pattern, the name pattern included, finds exactly the same
 * matches in two texts that differ only in the case of their letters.
 */
module CaseFolding {
  import opened Wrappers
  import opened Chars
  import opened Text
  import opened Patterns
  import opened Scanning

  /** `s` and `t` are equal up to case. */
  predicate SameFold(s: string, t: string) {
    |s| == |t| && forall n {:trigger Fold(s[n])} {:trigger Fold(t[n])} :: 0 <= n < |s| ==> Fold(s[n]) == Fold(t[n])
  }

  /** `s` with every letter put in lower case. */
  function Lower(s: string): (t: string)
    ensures SameFold(s, t)
  {
    seq(|s|, n requires 0 <= n < |s| => Fold(s[n]))
  }

  lemma {:induction false} RunSameFold(s: string, t: string, i: nat, k: CharClass)
    requires SameFold(s, t) && i <= |s|
    ensures Run(s, i, k) == Run(t, i, k)
    decreases |s| - i
  {
    if i < |s| {
      InClassFold(s[i], k);
      InClassFold(t[i], k);
      RunSameFold(s, t, i + 1, k);
    }
  }

  lemma LiteralSameFold(s: string, t: string, i: nat, lit: string)
    requires SameFold(s, t)
    ensures LiteralAt(s, i, lit) == LiteralAt(t, i, lit)
  {
  }

  lemma DigitsSameFold(s: string, t: string, i: nat, n: nat)
    requires SameFold(s, t)
    ensures DigitsAt(s, i, n) == DigitsAt(t, i, n)
  {
    if i + n <= |s| {
      forall j | i <= j < i + n ensures IsDigit(s[j]) == IsDigit(t[j]) {
        FoldKeepsClasses(s[j]);
        FoldKeepsClasses(t[j]);
      }
    }
  }

  lemma BoundarySameFold(s: string, t: string, i: nat)
    requires SameFold(s, t) && i <= |s|
    ensures WordBoundary(s, i) == WordBoundary(t, i)
  {
    if i > 0 {
      FoldKeepsClasses(s[i - 1]);
      FoldKeepsClasses(t[i - 1]);
    }
    if i < |s| {
      FoldKeepsClasses(s[i]);
      FoldKeepsClasses(t[i]);
    }
  }

  lemma YearAfterSameFold(s: string, t: string, j: nat)
    requires SameFold(s, t) && j <= |s|
    ensures YearAfter(s, j) == YearAfter(t, j)
  {
    RunSameFold(s, t, j, Space);
    var y := Run(s, j, Space);
    DigitsSameFold(s, t, y, 4);
    if y + 4 <= |s| {
      BoundarySameFold(s, t, y + 4);
    }
  }

  lemma MonthTrySameFold(s: string, t: string, i: nat, w: nat, a: string)
    requires SameFold(s, t) && i < w <= |s| && a != []
    ensures MonthTry(s, i, w, a) == MonthTry(t, i, w, a)
  {
    LiteralSameFold(s, t, w, a);
    if LiteralAt(s, w, a) {
      YearAfterSameFold(s, t, w + |a|);
    }
  }

  lemma {:induction false} MonthFromSameFold(s: string, t: string, i: nat, w: nat, alts: seq<string>)
    requires SameFold(s, t) && i < w <= |s|
    requires forall a :: a in alts ==> a != []
    ensures MonthFrom(s, i, w, alts) == MonthFrom(t, i, w, alts)
    decreases |alts|
  {
    if alts != [] {
      assert alts[0] in alts && forall a :: a in alts[1..] ==> a in alts;
      MonthTrySameFold(s, t, i, w, alts[0]);
      MonthFromSameFold(s, t, i, w, alts[1..]);
    }
  }

  lemma DayMonthYearWithSameFold(s: string, t: string, i: nat, n: nat, alts: seq<string>)
    requires SameFold(s, t) && i <= |s|
    requires forall a :: a in alts ==> a != []
    ensures DayMonthYearWith(s, i, n, alts) == DayMonthYearWith(t, i, n, alts)
  {
    DigitsSameFold(s, t, i, n);
    if DigitsAt(s, i, n) {
      RunSameFold(s, t, i + n, Space);
      var w := Run(s, i + n, Space);
      if w > i + n {
        MonthFromSameFold(s, t, i, w, alts);
      }
    }
  }

  lemma DayMonthYearInSameFold(s: string, t: string, i: nat, alts: seq<string>)
    requires SameFold(s, t) && i <= |s|
    requires forall a :: a in alts ==> a != []
    ensures DayMonthYearIn(s, i, alts) == DayMonthYearIn(t, i, alts)
  {
    BoundarySameFold(s, t, i);
    DayMonthYearWithSameFold(s, t, i, 2, alts);
    DayMonthYearWithSameFold(s, t, i, 1, alts);
  }

  lemma YearAbbrevSameFold(s: string, t: string, i: nat)
    requires SameFold(s, t) && i <= |s|
    ensures YearAbbrevAt(s, i) == YearAbbrevAt(t, i)
  {
    BoundarySameFold(s, t, i);
    DigitsSameFold(s, t, i, 4);
    if DigitsAt(s, i, 4) {
      RunSameFold(s, t, i + 4, Space);
      LiteralSameFold(s, t, Run(s, i + 4, Space), "г.");
    }
  }

  lemma NumericDateWithSameFold(s: string, t: string, i: nat, n1: nat, n2: nat)
    requires SameFold(s, t) && i <= |s|
    ensures NumericDateWith(s, i, n1, n2) == NumericDateWith(t, i, n1, n2)
  {
    var a := i + n1;
    var b := a + 1 + n2;
    DigitsSameFold(s, t, i, n1);
    DigitsSameFold(s, t, a + 1, n2);
    DigitsSameFold(s, t, b + 1, 4);
    LiteralSameFold(s, t, a, ".");
    LiteralSameFold(s, t, b, ".");
    if b + 5 <= |s| {
      BoundarySameFold(s, t, b + 5);
    }
  }

  lemma AbbrevNumberSameFold(s: string, t: string, i: nat, lit: string)
    requires SameFold(s, t) && i <= |s|
    ensures AbbrevNumberAt(s, i, lit) == AbbrevNumberAt(t, i, lit)
  {
    LiteralSameFold(s, t, i, lit);
    if LiteralAt(s, i, lit) {
      RunSameFold(s, t, i + |lit|, Space);
      RunSameFold(s, t, Run(s, i + |lit|, Space), Digit);
    }
  }

  lemma StorageUnitSameFold(s: string, t: string, i: nat)
    requires SameFold(s, t) && i <= |s|
    ensures StorageUnitAt(s, i) == StorageUnitAt(t, i)
  {
    StorageUnitInSameFold(s, t, i, "ед.", "хр.");
  }

  lemma StorageUnitInSameFold(s: string, t: string, i: nat, lead: string, lit: string)
    requires SameFold(s, t) && i <= |s|
    ensures StorageUnitIn(s, i, lead, lit) == StorageUnitIn(t, i, lead, lit)
  {
    LiteralSameFold(s, t, i, lead);
    if LiteralAt(s, i, lead) {
      RunSameFold(s, t, i + |lead|, Space);
      AbbrevNumberSameFold(s, t, Run(s, i + |lead|, Space), lit);
    }
  }

  lemma FullNameSameFold(s: string, t: string, i: nat)
    requires SameFold(s, t) && i <= |s|
    ensures FullNameAt(s, i) == FullNameAt(t, i)
  {
    BoundarySameFold(s, t, i);
    RunSameFold(s, t, i, Letter);
    var a := Run(s, i, Letter);
    RunSameFold(s, t, a, Space);
    var b := Run(s, a, Space);
    RunSameFold(s, t, b, Letter);
    var c := Run(s, b, Letter);
    RunSameFold(s, t, c, Space);
    var d := Run(s, c, Space);
    RunSameFold(s, t, d, Letter);
    BoundarySameFold(s, t, Run(s, d, Letter));
  }

  /** Each of the nine recognisers ignores case. */
  lemma MatchAtSameFold(p: Pattern, s: string, t: string, i: nat)
    requires SameFold(s, t)
    ensures MatchAt(p, s, i) == MatchAt(p, t, i)
  {
    if i <= |s| {
      match p
      case DayMonthYear => DayMonthYearInSameFold(s, t, i, Months);
      case YearAbbrev => YearAbbrevSameFold(s, t, i);
      case NumericDate =>
        BoundarySameFold(s, t, i);
        NumericDateWithSameFold(s, t, i, 2, 2);
        NumericDateWithSameFold(s, t, i, 2, 1);
        NumericDateWithSameFold(s, t, i, 1, 2);
        NumericDateWithSameFold(s, t, i, 1, 1);
      case Fond => AbbrevNumberSameFold(s, t, i, "ф.");
      case Opis => AbbrevNumberSameFold(s, t, i, "оп.");
      case Delo => AbbrevNumberSameFold(s, t, i, "д.");
      case FondWord => AbbrevNumberSameFold(s, t, i, "фонд");
      case StorageUnit => StorageUnitSameFold(s, t, i);
      case FullName => FullNameSameFold(s, t, i);
    }
  }

  /** Two recognisers that agree at every position of equally long texts scan alike. */
  lemma {:induction false} ScanAgrees(f: Matcher, s: string, t: string, i: nat)
    requires Sound(f) && |s| == |t| && i <= |s|
    requires forall j :: 0 <= j <= |s| ==> f(s, j) == f(t, j)
    ensures Scan(f, s, i) == Scan(f, t, i)
    decreases |s| - i
  {
    if i < |s| {
      match f(s, i)
      case Some(m) => ScanAgrees(f, s, t, m.next);
      case None => ScanAgrees(f, s, t, i + 1);
    }
  }

  /** Texts equal up to case yield the same matches for every pattern. */
  lemma MatchesSameFold(p: Pattern, s: string, t: string)
    requires SameFold(s, t)
    ensures Matches(p, s) == Matches(p, t)
  {
    var f := PatternMatcher(p);
    forall j | 0 <= j <= |s| ensures f(s, j) == f(t, j) {
      MatchAtSameFold(p, s, t, j);
    }
    ScanAgrees(f, s, t, 0);
  }

  /**
   * Case insensitivity of `findall`: texts equal up to case give the same matches,
   * and the reported texts are equal up to case, one for one.
   */
  lemma FindAllSameFold(p: Pattern, s: string, t: string)
    requires SameFold(s, t)
    ensures |FindAll(p, s)| == |FindAll(p, t)|
    ensures forall k :: 0 <= k < |FindAll(p, s)| ==> SameFold(FindAll(p, s)[k], FindAll(p, t)[k])
  {
    MatchesSameFold(p, s, t);
    var ms := Matches(p, s);
    assert forall m :: m in ms ==> m.textStart <= m.textEnd <= |s|;
    assert FindAll(p, s) == Texts(s, ms) && FindAll(p, t) == Texts(t, ms);
    TextsSameFold(s, t, ms);
  }

  /** The same stretches of two texts equal up to case are equal up to case. */
  lemma TextsSameFold(s: string, t: string, ms: seq<Match>)
    requires SameFold(s, t) && forall m :: m in ms ==> m.textStart <= m.textEnd <= |s|
    ensures |Texts(s, ms)| == |Texts(t, ms)|
    ensures forall k :: 0 <= k < |ms| ==> SameFold(Texts(s, ms)[k], Texts(t, ms)[k])
  {
    forall k | 0 <= k < |ms| ensures SameFold(Texts(s, ms)[k], Texts(t, ms)[k]) {
      SliceSameFold(s, t, ms[k].textStart, ms[k].textEnd);
    }
  }

  lemma SliceSameFold(s: string, t: string, x: nat, y: nat)
    requires SameFold(s, t) && x <= y <= |s|
    ensures SameFold(s[x..y], t[x..y])
  {
    forall n | 0 <= n < y - x ensures Fold(s[x..y][n]) == Fold(t[x..y][n]) {
      assert s[x..y][n] == s[x + n] && t[x..y][n] == t[x + n];
    }
  }

  /** Lower-casing a lower-case text changes nothing. */
  lemma LowerIdempotent(s: string)
    ensures Lower(Lower(s)) == Lower(s)
  {
    forall n | 0 <= n < |s| ensures Lower(Lower(s))[n] == Lower(s)[n] {
      FoldIdempotent(s[n]);
    }
  }

  /** A text and its lower-case form have the same matches for every pattern. */
  lemma MatchesLower(p: Pattern, s: string)
    ensures Matches(p, Lower(s)) == Matches(p, s)
  {
    MatchesSameFold(p, s, Lower(s));
  }

  /** What `findall` reports in the lower-case form of a text is the lower-case form of what it reports in the text. */
  lemma FindAllLower(p: Pattern, s: string)
    ensures |FindAll(p, Lower(s))| == |FindAll(p, s)|
    ensures forall k :: 0 <= k < |FindAll(p, s)| ==> FindAll(p, Lower(s))[k] == Lower(FindAll(p, s)[k])
  {
    MatchesLower(p, s);
    var ms := Matches(p, s);
    assert forall m :: m in ms ==> m.textStart <= m.textEnd <= |s|;
    assert FindAll(p, s) == Texts(s, ms) && FindAll(p, Lower(s)) == Texts(Lower(s), ms);
    forall k | 0 <= k < |ms| ensures Texts(Lower(s), ms)[k] == Lower(Texts(s, ms)[k]) {
      SliceLower(s, ms[k].textStart, ms[k].textEnd);
    }
  }

  lemma SliceLower(s: string, x: nat, y: nat)
    requires x <= y <= |s|
    ensures Lower(s)[x..y] == Lower(s[x..y])
  {
  }
}
