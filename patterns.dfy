/**
 * The nine regular expressions of the entity extractor, each as a hand-written
 * recogniser `MatchAt(p, s, i)` that answers what Python's `re` engine, with
 * `re.IGNORECASE`, finds when it tries pattern `p` at position `i` of `s`.
 *
 * How the regex constructs are rendered:
 * - a literal letter under `re.IGNORECASE`, and a class such as `[Фф]`, accepts a
 *   character whose `Fold` is the lower-case letter (`LiteralAt`);
 * - `\d+`, `\s*`, `\s+` and `[а-яё]+` are greedy runs (`Run`). A run never has to
 *   give characters back, because the token after it cannot accept a character of
 *   the run's class (a digit run is followed by whitespace, a dot or a boundary,
 *   a whitespace run by a digit or a letter, a letter run by whitespace or a
 *   boundary);
 * - `\d{1,2}` is tried with two digits first and then with one, as the engine
 *   backtracks;
 * - the month alternation is tried in the order written;
 * - `\b` is `WordBoundary`.
 */
module Patterns {
  import opened Wrappers
  import opened Chars
  import opened Text

  datatype Pattern =
    | DayMonthYear   // day, month name, year (backend/main.py:88); findall reports the month group
    | YearAbbrev     // a year followed by the abbreviation for "year" (line 89)
    | NumericDate    // day, month and year in digits, joined by dots (line 90)
    | Fond           // the abbreviation for fonds and a number (line 94)
    | Opis           // the abbreviation for inventory and a number (line 95)
    | Delo           // the abbreviation for file and a number (line 96)
    | FondWord       // the word for fonds and a number (line 97)
    | StorageUnit    // the two-part abbreviation for storage unit and a number (line 98)
    | FullName       // three words of Russian letters, case ignored: surname, first name, patronymic (line 102)

  /**
   * A match that starts at `start` and ends at `next`, where the scan resumes. The
   * text `findall` reports is `s[textStart..textEnd]`: the whole match, or for
   * `DayMonthYear` its one capturing group.
   */
  datatype Match = Match(start: nat, textStart: nat, textEnd: nat, next: nat)

  /** A non-empty match of `s` at `i` that reports a non-empty text inside it. */
  predicate ValidMatch(m: Match, s: string, i: nat) {
    m.start == i && i <= m.textStart < m.textEnd <= m.next <= |s|
  }

  /** The twelve genitive month names of the `DayMonthYear` alternation, in its order. */
  const Months: seq<string> := ["января", "февраля", "марта", "апреля", "мая", "июня",
                                "июля", "августа", "сентября", "октября", "ноября", "декабря"]

  /** The fixed text `lit` (lower case) occurs at `i`, compared case-insensitively. */
  predicate LiteralAt(s: string, i: nat, lit: string) {
    i + |lit| <= |s| && forall n :: 0 <= n < |lit| ==> Fold(s[i + n]) == lit[n]
  }

  /** `\d{n}` at `i`. */
  predicate DigitsAt(s: string, i: nat, n: nat) {
    i + n <= |s| && forall t :: i <= t < i + n ==> IsDigit(s[t])
  }

  /** `\b` at position `i`: exactly one of the characters around `i` is a word character. */
  predicate WordBoundary(s: string, i: nat)
    requires i <= |s|
  {
    (i > 0 && IsWordChar(s[i - 1])) != (i < |s| && IsWordChar(s[i]))
  }

  // ---------------------------------------------------------------------------
  // Date pattern 1 (backend/main.py:88): a boundary, one or two digits, whitespace,
  // one of the twelve month names as the capturing group, whitespace, four digits,
  // a boundary.

  /** `\s+\d{4}\b` at `j`: the end of the year, if it is there. */
  function YearAfter(s: string, j: nat): (r: Option<nat>)
    requires j <= |s|
    ensures r.Some? ==> j < r.value <= |s|
  {
    var y := Run(s, j, Space);
    if y > j && DigitsAt(s, y, 4) && WordBoundary(s, y + 4) then Some(y + 4) else None
  }

  /** One alternative `a` of the month alternation at `w`, followed by the year; the match began at `i`. */
  function MonthTry(s: string, i: nat, w: nat, a: string): (r: Option<Match>)
    requires i < w <= |s| && a != []
    ensures r.Some? ==> ValidMatch(r.value, s, i) && r.value.textStart == w
    ensures r.Some? ==> r.value.textEnd == w + |a| && LiteralAt(s, w, a)
  {
    if !LiteralAt(s, w, a) then None
    else
      var y := YearAfter(s, w + |a|);
      if y.Some? then Some(Match(i, w, w + |a|, y.value)) else None
  }

  /**
   * The alternation at `w` over the alternatives `alts`, tried in order, each
   * followed by the rest of the pattern; the match began at `i`.
   */
  function MonthFrom(s: string, i: nat, w: nat, alts: seq<string>): (r: Option<Match>)
    requires i < w <= |s|
    requires forall a :: a in alts ==> a != []
    ensures r.Some? ==> ValidMatch(r.value, s, i) && r.value.textStart == w
    ensures r.Some? ==> exists a :: a in alts && r.value.textEnd == w + |a| && LiteralAt(s, w, a)
  {
    if alts == [] then None
    else
      assert alts[0] in alts && forall a :: a in alts[1..] ==> a in alts;
      var first := MonthTry(s, i, w, alts[0]);
      if first.Some? then first else MonthFrom(s, i, w, alts[1..])
  }

  /** The pattern after `\b`, with the day taken as exactly `n` digits and the month among `alts`. */
  function DayMonthYearWith(s: string, i: nat, n: nat, alts: seq<string>): (r: Option<Match>)
    requires i <= |s|
    requires forall a :: a in alts ==> a != []
    ensures r.Some? ==> ValidMatch(r.value, s, i)
  {
    if !DigitsAt(s, i, n) then None
    else
      var w := Run(s, i + n, Space);
      if w == i + n then None else MonthFrom(s, i, w, alts)
  }

  /** The whole pattern with the month among `alts`: `\b`, then the day as two digits, else as one. */
  function DayMonthYearIn(s: string, i: nat, alts: seq<string>): (r: Option<Match>)
    requires i <= |s|
    requires forall a :: a in alts ==> a != []
    ensures r.Some? ==> ValidMatch(r.value, s, i)
  {
    if !WordBoundary(s, i) then None
    else if DayMonthYearWith(s, i, 2, alts).Some? then DayMonthYearWith(s, i, 2, alts)
    else DayMonthYearWith(s, i, 1, alts)
  }

  function DayMonthYearAt(s: string, i: nat): (r: Option<Match>)
    requires i <= |s|
    ensures r.Some? ==> ValidMatch(r.value, s, i)
  {
    DayMonthYearIn(s, i, Months)
  }

  // ---------------------------------------------------------------------------
  // Date pattern 2 (backend/main.py:89): a boundary, four digits, whitespace, `г.`.

  function YearAbbrevAt(s: string, i: nat): (r: Option<Match>)
    requires i <= |s|
    ensures r.Some? ==> ValidMatch(r.value, s, i)
  {
    if !(WordBoundary(s, i) && DigitsAt(s, i, 4)) then None
    else
      var w := Run(s, i + 4, Space);
      if w > i + 4 && LiteralAt(s, w, "г.") then Some(Match(i, i, w + 2, w + 2)) else None
  }

  // ---------------------------------------------------------------------------
  // Date pattern 3 (backend/main.py:90): a boundary, one or two digits, a dot, one
  // or two digits, a dot, four digits, a boundary.

  /** The pattern after `\b`, with the day taken as `n1` digits and the month as `n2`. */
  function NumericDateWith(s: string, i: nat, n1: nat, n2: nat): (r: Option<Match>)
    requires i <= |s|
    ensures r.Some? ==> ValidMatch(r.value, s, i)
  {
    var a := i + n1;
    var b := a + 1 + n2;
    if DigitsAt(s, i, n1) && LiteralAt(s, a, ".") && DigitsAt(s, a + 1, n2) && LiteralAt(s, b, ".")
       && DigitsAt(s, b + 1, 4) && WordBoundary(s, b + 5)
    then Some(Match(i, i, b + 5, b + 5))
    else None
  }

  /** Backtracking order: day 2 then 1 digits, and for each the month 2 then 1 digits. */
  function NumericDateAt(s: string, i: nat): (r: Option<Match>)
    requires i <= |s|
    ensures r.Some? ==> ValidMatch(r.value, s, i)
  {
    if !WordBoundary(s, i) then None
    else if NumericDateWith(s, i, 2, 2).Some? then NumericDateWith(s, i, 2, 2)
    else if NumericDateWith(s, i, 2, 1).Some? then NumericDateWith(s, i, 2, 1)
    else if NumericDateWith(s, i, 1, 2).Some? then NumericDateWith(s, i, 1, 2)
    else NumericDateWith(s, i, 1, 1)
  }

  // ---------------------------------------------------------------------------
  // Archive patterns (backend/main.py:94-98): an abbreviation, optional whitespace,
  // a greedy digit run; none of them has a boundary.

  /** `lit\s*\d+` at `i`, for the abbreviations `ф.`, `оп.`, `д.` and `фонд`. */
  function AbbrevNumberAt(s: string, i: nat, lit: string): (r: Option<Match>)
    requires i <= |s|
    ensures r.Some? ==> ValidMatch(r.value, s, i)
  {
    if !LiteralAt(s, i, lit) then None
    else
      var j := Run(s, i + |lit|, Space);
      var d := Run(s, j, Digit);
      if d > j then Some(Match(i, i, d, d)) else None
  }

  /** `ед\.\s*хр\.\s*\d+` at `i`: `ед.`, whitespace, then `хр\.\s*\d+` as above. */
  function StorageUnitAt(s: string, i: nat): (r: Option<Match>)
    requires i <= |s|
    ensures r.Some? ==> ValidMatch(r.value, s, i)
  {
    StorageUnitIn(s, i, "ед.", "хр.")
  }

  /** `lead`, whitespace, then `lit` with its number as `AbbrevNumberAt` reads it. */
  function StorageUnitIn(s: string, i: nat, lead: string, lit: string): (r: Option<Match>)
    requires i <= |s|
    ensures r.Some? ==> ValidMatch(r.value, s, i)
  {
    if !LiteralAt(s, i, lead) then None
    else
      var r := AbbrevNumberAt(s, Run(s, i + |lead|, Space), lit);
      if r.Some? then Some(Match(i, i, r.value.next, r.value.next)) else None
  }

  // ---------------------------------------------------------------------------
  // Name pattern (backend/main.py:102): a boundary, three words separated by
  // whitespace, a boundary. Each word is an upper-case letter then one or more
  // lower-case ones; under re.IGNORECASE that is a run of at least two Russian
  // letters in any case.

  function FullNameAt(s: string, i: nat): (r: Option<Match>)
    requires i <= |s|
    ensures r.Some? ==> ValidMatch(r.value, s, i)
  {
    if !WordBoundary(s, i) then None
    else
      var a := Run(s, i, Letter);
      var b := Run(s, a, Space);
      var c := Run(s, b, Letter);
      var d := Run(s, c, Space);
      var e := Run(s, d, Letter);
      if a >= i + 2 && b > a && c >= b + 2 && d > c && e >= d + 2 && WordBoundary(s, e)
      then Some(Match(i, i, e, e))
      else None
  }

  // ---------------------------------------------------------------------------

  /** What the engine finds when it tries pattern `p` at position `i` (nothing past the end). */
  function MatchAt(p: Pattern, s: string, i: nat): (r: Option<Match>)
    ensures r.Some? ==> ValidMatch(r.value, s, i)
  {
    if i > |s| then None
    else match p
      case DayMonthYear => DayMonthYearAt(s, i)
      case YearAbbrev => YearAbbrevAt(s, i)
      case NumericDate => NumericDateAt(s, i)
      case Fond => AbbrevNumberAt(s, i, "ф.")
      case Opis => AbbrevNumberAt(s, i, "оп.")
      case Delo => AbbrevNumberAt(s, i, "д.")
      case FondWord => AbbrevNumberAt(s, i, "фонд")
      case StorageUnit => StorageUnitAt(s, i)
      case FullName => FullNameAt(s, i)
  }
}
