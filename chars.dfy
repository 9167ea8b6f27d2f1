/**
 * Character predicates standing in for the character classes of Python's `re`
 * module and for `str.strip()`.
 *
 * - `\s` and `str.strip()` both use CPython's whitespace table; `IsSpace` lists it
 *   in full.
 * - `\d` is restricted to the ASCII digits (Python also accepts other scripts'
 *   decimal digits).
 * - The word characters behind `\b` are the ASCII letters and digits, `_` and the
 *   letters of the Cyrillic and Cyrillic Supplement blocks (Python accepts every
 *   alphanumeric character).
 * - `re.IGNORECASE` is modelled by `Fold`, Python's lower-case mapping on the ASCII
 *   letters and on the upper-case half of the Cyrillic block.
 */
module Chars {

  /** `\d`, restricted to ASCII. */
  predicate IsDigit(c: char) {
    '0' <= c <= '9'
  }

  /** `\s` and the characters `str.strip()` removes: CPython's whitespace table. */
  predicate IsSpace(c: char) {
    || '\t' <= c <= '\r'                // TAB, LF, VT, FF, CR
    || '\U{001C}' <= c <= ' '           // the information separators and SPACE
    || c == '\U{0085}' || c == '\U{00A0}' || c == '\U{1680}'
    || '\U{2000}' <= c <= '\U{200A}'
    || c == '\U{2028}' || c == '\U{2029}' || c == '\U{202F}' || c == '\U{205F}'
    || c == '\U{3000}'
  }

  /** The characters `\b` treats as word characters. */
  predicate IsWordChar(c: char) {
    || 'a' <= c <= 'z' || 'A' <= c <= 'Z' || IsDigit(c) || c == '_'
    || '\U{0400}' <= c <= '\U{0481}'    // Cyrillic letters up to the thousands sign
    || '\U{048A}' <= c <= '\U{052F}'    // the remaining Cyrillic and Cyrillic Supplement letters
  }

  /**
   * The case folding `re.IGNORECASE` applies: upper-case ASCII and Cyrillic letters
   * go to their lower-case partners, everything else is left alone. Folding never
   * changes whether a character is a digit, whitespace or a word character.
   */
  function Fold(c: char): (f: char)
    ensures !('A' <= f <= 'Z') && !('\U{0400}' <= f <= '\U{042F}')
  {
    if 'A' <= c <= 'Z' then (c as int + 0x20) as char
    else if '\U{0400}' <= c <= '\U{040F}' then (c as int + 0x50) as char
    else if '\U{0410}' <= c <= '\U{042F}' then (c as int + 0x20) as char
    else c
  }

  /** Folding never changes whether a character is a digit, whitespace, a word character or a dot. */
  lemma FoldKeepsClasses(c: char)
    ensures IsDigit(Fold(c)) == IsDigit(c) && IsSpace(Fold(c)) == IsSpace(c)
    ensures IsWordChar(Fold(c)) == IsWordChar(c)
    ensures Fold(c) == '.' <==> c == '.'
  {
  }

  /** Folding twice is folding once. */
  lemma FoldIdempotent(c: char)
    ensures Fold(Fold(c)) == Fold(c)
  {
  }

  /**
   * A letter of the Russian alphabet. Under `re.IGNORECASE` both `[А-ЯЁ]` and
   * `[а-яё]` accept exactly the characters whose folded form lies in `а-я` or is `ё`.
   */
  predicate IsRussianLetter(c: char) {
    var f := Fold(c);
    'а' <= f <= 'я' || f == 'ё'
  }

  /** The Russian letters are exactly `А-Я`, `Ё`, `а-я` and `ё`, in either case. */
  lemma RussianLetterRanges(c: char)
    ensures IsRussianLetter(c) <==> ('А' <= c <= 'Я' || c == 'Ё' || 'а' <= c <= 'я' || c == 'ё')
  {
  }

  /** The three classes the patterns repeat with `+` and `*`. */
  datatype CharClass = Digit | Space | Letter

  predicate InClass(c: char, k: CharClass) {
    match k
    case Digit => IsDigit(c)
    case Space => IsSpace(c)
    case Letter => IsRussianLetter(c)
  }

  /** Class membership depends only on the folded character. */
  lemma InClassFold(c: char, k: CharClass)
    ensures InClass(Fold(c), k) == InClass(c, k)
  {
    FoldKeepsClasses(c);
  }

  /** The three classes are pairwise disjoint; a greedy run never needs to give back. */
  lemma ClassesDisjoint(c: char)
    ensures !(IsDigit(c) && IsSpace(c)) && !(IsDigit(c) && IsRussianLetter(c))
    ensures !(IsSpace(c) && IsRussianLetter(c))
    ensures IsDigit(c) || IsRussianLetter(c) ==> IsWordChar(c)
  {
  }
}
