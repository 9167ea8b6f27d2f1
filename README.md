# Archive OCR service: text handling

The service recognises scanned archive documents. This project models the part of
`backend/main.py` that works on the recognised text. That part does three things:

- **`extract_structured_data`** runs nine fixed regular expressions over the
  text with `re.IGNORECASE`: three for dates, five for archive references (fonds,
  inventory, file, storage unit) and one for full names. It collects the findings
  of each category, pattern after pattern, into a dictionary with the keys
  `dates`, `names`, `archive_codes` and `places`.
- **`clean_recognized_text`** splits the text into lines and strips each one. It
  keeps the stripped lines longer than two characters and joins them again with
  newlines.
- **The `/export` endpoint** gives the document a fixed heading and adds one
  paragraph for each line that is not blank. The line is added as it stands.

No regex engine is modelled. Each pattern is a hand-written recogniser
(`Patterns.MatchAt`) that reproduces what Python's `re` does for that one pattern:

- greedy runs;
- the `{1,2}` counts, which are tried with two digits and then one;
- the month alternation, in its written order;
- `\b`;
- case-insensitive comparison.

`Scanning.Scan` is the scan behind `re.findall`: it tries the recogniser at every
position and, after a match, resumes where the match ended. It yields match records.
`Scanning.FindAll` turns them into the reported strings with `Scanning.Texts`; for the
first date pattern each string is the capturing group only.

The code is modelled in the form it has:

- The matchers and `findall` are pure recursive functions, with lemmas about them.
- The three loops that extend the dictionary are methods.
   - `Extraction.ExtendEach` extends the list under one key.
   - `Extraction.Collect` runs the three loops.
- The cleaning loop and the export loop are methods too (`Cleaning.CleanLines`,
  `Export.NonBlankLines`).
- Each loop has a loop invariant. Each method is proved equal to a specification
  function (`Extract`, `KeptLines`, `NonBlank`), and the properties are proved
  about that function.

Character classes are explicit predicates in `Chars`:

- `\d` is the ASCII digits.
- `\s` and `str.strip()` use CPython's whitespace table.
- The word characters for `\b` are the ASCII letters and digits, `_` and the
  Cyrillic letters.
- Case folding maps ASCII `A-Z` and Cyrillic U+0400–U+042F to lower case.

Three things the code does differ from what the pattern texts suggest at first
reading. The model follows the code:

- **The month pattern reports only the month.** The pattern looks like a whole
  date, but for `15 марта 1925` `findall` reports `марта`, its capturing group
  (`Completeness.MonthGroupExample`).
- **Names ignore case.** The name pattern spells out capital and small letters, but it
  runs with `re.IGNORECASE`, so all-lower-case words are accepted too
  (`Completeness.LowerCaseNameExample`).
- **Any whitespace separates name words.** The separators are `\s+`, so newlines and
  runs of spaces count, not only single spaces.

For every pattern the model proves both directions. Each match has the pattern's
shape and stands in the surroundings the pattern demands (`Shapes.MatchShape`, whose
`Context` holds the boundaries, the day and year around the month group and the
maximal digit runs). Each stretch of text of that shape, in those surroundings, is
matched (`Completeness`).

## Model

| member | source | states |
|---|---|---|
| Extraction.ExtractStructuredData | backend/main.py:79-114 | the returned dictionary is exactly `ToDict(Extract(text))`: four keys, each category's findings, `places` empty |
| Extraction.Collect | backend/main.py:80-112 | starting from four empty lists and running the three loops yields, under each key, the concatenation of what `findall` reports for each of that category's patterns, and `places` stays empty |
| Extraction.ExtendEach | backend/main.py:105-112 | one `extend` loop: the list under `key` grows by the findings of each pattern in list order; every other key is unchanged |
| Extraction.ToDict | backend/main.py:80-85 | the result has exactly the keys `dates`, `names`, `archive_codes`, `places` |
| Extraction.ExtractInPatternOrder | backend/main.py:105-114 | `dates` is the three date patterns' findings concatenated in list order, `archive_codes` the five archive patterns', `names` the name pattern's, and `places` is empty |
| Extraction.FindAllEachAppend | backend/main.py:105-112 | running two lists of patterns one after the other concatenates their findings, so every finding of an earlier pattern precedes every finding of a later one |
| Extraction.ExtractEmpty | backend/main.py:79-114 | the empty text gives four empty lists |
| Extraction.FindAllEachShapes | backend/main.py:105-112 | every finding of a list of patterns has the shape of one of those patterns |
| Extraction.DatesShape | backend/main.py:87-106 | every date is a month name up to case (the group of the first pattern), four digits plus whitespace plus `г.`, or a dotted numeric date |
| Extraction.ArchiveShapeEnds | backend/main.py:93-99 | a text with the shape of an archive pattern starts, in any case, with that pattern's own abbreviation (`ф.`, `оп.`, `д.`, `фонд` or `ед.`), and ends with a digit |
| Extraction.ArchiveCodesShape | backend/main.py:93-109 | every archive code starts with `ф.`, `оп.`, `д.`, `фонд` or `ед.` in any case, and ends in a digit |
| Extraction.NamesShape | backend/main.py:101-112 | every name is three runs of Russian letters, each at least two long, separated by non-empty whitespace |
| Extraction.FindAllEachSameFold | backend/main.py:105-112 | texts equal up to case give, pattern list by pattern list, equally many findings, each equal up to case to its partner |
| Extraction.ExtractSameFold | backend/main.py:105-112 | texts equal up to case give equally many entities in every category, each equal to its partner up to case |
| Scanning.PatternMatcher | backend/main.py:88-102 | the recogniser of a pattern is sound: every match starts where it was tried, is non-empty and lies in the text |
| Scanning.Scan | backend/main.py:106 | every reported match is what the recogniser finds at its own start, and the matches are in text order without overlap |
| Scanning.ScanLeftmost | backend/main.py:106 | no match is skipped: every position where the recogniser succeeds lies inside one of the reported matches |
| Scanning.MatchesLeftmost | backend/main.py:106 | `finditer` for a pattern: each match is the pattern's match at its start, matches do not overlap, and every position where the pattern matches is covered |
| Scanning.FindAllShapes | backend/main.py:88-102 | every text `findall` reports for a pattern has that pattern's shape |
| Scanning.MatchesContexts | backend/main.py:88-102 | every reported match sits in the surroundings its pattern demands: a date starts at `\b` (and the first and third end at one), the first date pattern's group has the day before it and the year after it, an archive code's digit run is never followed by another digit, and a name never touches a word character on either side |
| Scanning.Matches | backend/main.py:106 | `finditer`: each match is the pattern's match at its own start, in text order without overlap (with `Scanning.MatchesLeftmost`, no match is skipped) |
| Scanning.FindAll | backend/main.py:106 | `re.findall`: one string per match of `Matches`, in order, each the slice the match reports — the group for the first date pattern, the whole match otherwise; characterised further by `Scanning.FindAllShapes` and `Completeness.FindAllWhole` |
| Scanning.Texts | backend/main.py:106 | `findall` reports one text per match, the slice between the match's reported bounds |
| Patterns.MatchAt | backend/main.py:88-102 | soundness: every match of every pattern starts where it was tried and reports a non-empty text inside the text; the converse, that the pattern's shape is matched, is stated pattern by pattern by the `Completeness` lemmas below |
| Patterns.DayMonthYearAt | backend/main.py:88 | the first date pattern's recogniser: a match starts where it was tried and reports a non-empty group inside it; its shape is `Shapes.DayMonthYearShape` and `Shapes.DayMonthYearContext`, its converse `Completeness.DayMonthYearComplete` |
| Patterns.YearAbbrevAt | backend/main.py:89 | the second date pattern's recogniser, sound in the same sense; characterised by `Shapes.YearAbbrevShape`, `Shapes.YearAbbrevContext` and `Completeness.YearAbbrevComplete` |
| Patterns.NumericDateAt | backend/main.py:90 | the third date pattern's recogniser, sound in the same sense; characterised by `Shapes.NumericDateShape`, `Shapes.NumericDateContext` and `Completeness.NumericDateComplete` |
| Patterns.AbbrevNumberAt | backend/main.py:94-97 | the recogniser of the four abbreviation patterns, sound in the same sense; characterised by `Shapes.AbbrevNumberShape` and `Completeness.AbbrevNumberComplete` |
| Patterns.StorageUnitAt | backend/main.py:98 | the storage-unit recogniser, sound in the same sense; characterised by `Shapes.StorageUnitShape` and `Completeness.StorageUnitComplete` |
| Patterns.FullNameAt | backend/main.py:102 | the name recogniser, sound in the same sense; characterised by `Shapes.FullNameShape` and `Completeness.FullNameComplete` |
| Patterns.MonthTry | backend/main.py:88 | one month alternative matches only where that name stands, up to case, and the reported group is exactly the name |
| Patterns.MonthFrom | backend/main.py:88 | the month alternation matches only one of its alternatives, up to case, and reports that name as the group |
| Shapes.MatchShape | backend/main.py:88-102 | the text a pattern reports has that pattern's shape, and its surroundings are as the pattern demands (`Shapes.Context`: the boundaries of the date and name patterns, the day and year around the month group, the maximal digit runs of the archive patterns) |
| Shapes.DateMatchShape | backend/main.py:88-90 | the text a date pattern reports has that pattern's shape, and the match has that pattern's boundaries and, for the first, the day and the year around the group |
| Shapes.DayMonthYearContext | backend/main.py:88 | a match of the first date pattern starts at `\b`; before the group stand one or two digits and whitespace, after it whitespace, four digits and `\b` where the match ends |
| Shapes.MonthFromContext | backend/main.py:88 | whichever month alternative is taken, whitespace, four digits and `\b` follow it |
| Shapes.YearAbbrevContext | backend/main.py:89 | a match of the second date pattern starts at `\b` |
| Shapes.NumericDateContext | backend/main.py:90 | a match of the third date pattern starts and ends at `\b` |
| Shapes.ArchiveMatchShape | backend/main.py:94-98 | the text an archive pattern reports has that pattern's shape and its digit run is maximal |
| Shapes.DayMonthYearShape | backend/main.py:88 | the first date pattern reports one of the twelve genitive month names, up to case |
| Shapes.DayMonthYearInShape | backend/main.py:88 | with any list of month names, the first date pattern reports one of those names, up to case |
| Shapes.MonthFromShape | backend/main.py:88 | the month alternation reports one of its alternatives, up to case |
| Shapes.YearAbbrevShape | backend/main.py:89 | the second date pattern reports four digits, non-empty whitespace and `г.` in any case |
| Shapes.NumericDateShape | backend/main.py:90 | the third date pattern reports one or two digits, a dot, one or two digits, a dot and four digits |
| Shapes.NumericDateWithShape | backend/main.py:90 | with the digit counts fixed, the reported text splits into those digits and the two dots |
| Shapes.AbbrevNumberShape | backend/main.py:94-97 | an abbreviation pattern reports the abbreviation, optional whitespace and a digit run that the next character does not extend |
| Shapes.StorageUnitShape | backend/main.py:98 | the storage-unit pattern reports `ед.`, optional whitespace, `хр.`, optional whitespace and a maximal digit run |
| Shapes.FullNameSplit | backend/main.py:102 | a name match is three letter runs of length two or more, separated by non-empty whitespace |
| Shapes.RunsNameSplit | backend/main.py:102 | five consecutive runs (letters, whitespace, letters, whitespace, letters) that are long enough form a name |
| Shapes.FullNameShape | backend/main.py:102 | a name has the shape above and has no word character just before or just after it |
| CaseFolding.MatchAtSameFold | backend/main.py:88-102 | every recogniser finds the same match in two texts that differ only in case |
| CaseFolding.MatchesSameFold | backend/main.py:106 | two texts equal up to case have the same list of matches for every pattern |
| CaseFolding.FindAllSameFold | backend/main.py:106 | two texts equal up to case give equally many findings for every pattern, each equal up to case to its partner |
| CaseFolding.MatchesLower | backend/main.py:106 | under `re.IGNORECASE` a text and its lower-case form have the same matches for every pattern |
| CaseFolding.FindAllLower | backend/main.py:106 | what `findall` reports in the lower-case form of a text is, item by item, the lower-case form of what it reports in the text |
| CaseFolding.LowerIdempotent | backend/main.py:106 | lower-casing is a normal form: doing it twice is doing it once |
| CaseFolding.ScanAgrees | backend/main.py:106 | two equally long texts on which a recogniser agrees everywhere are scanned alike |
| Completeness.DayMonthYearComplete | backend/main.py:88 | a boundary, one or two digits, whitespace, a month name in any case, whitespace, four digits and a boundary are matched there, the group being exactly that month name and the match ending after the year |
| Completeness.MonthFromFirst | backend/main.py:88 | the month alternation takes the first alternative, in its written order, that leads to a whole match |
| Completeness.MonthOnly | backend/main.py:88 | at most one of the twelve month names stands at a position, so the order of the alternation never changes which month is reported |
| Completeness.YearAbbrevComplete | backend/main.py:89 | a boundary, four digits, whitespace and `г.` in any case are matched there, up to the dot |
| Completeness.NumericDateComplete | backend/main.py:90 | a boundary, one or two digits, a dot, one or two digits, a dot, four digits and a boundary are matched there as a whole |
| Completeness.AbbrevNumberComplete | backend/main.py:94-97 | an abbreviation in any case, optional whitespace and a digit run not followed by a digit are matched there as a whole |
| Completeness.StorageUnitComplete | backend/main.py:98 | `ед.`, optional whitespace, `хр.`, optional whitespace and a maximal digit run, in any case, are matched there as a whole |
| Completeness.FullNameComplete | backend/main.py:102 | a boundary, three runs of two or more Russian letters with whitespace between them and a boundary are matched there as a whole |
| Completeness.FindAllWhole | backend/main.py:106 | when a pattern matches the whole text, `findall` reports exactly the one text of that match |
| Completeness.NameTextComplete | backend/main.py:102-112 | three words of at least two Russian letters, in any case, separated by any non-empty whitespace, are reported as one name |
| Completeness.MonthGroupMatch | backend/main.py:88 | the first date pattern matches all of `15 марта 1925`, with `марта` as its group |
| Completeness.MonthGroupExample | backend/main.py:105-106 | `findall` with the first date pattern gives `["марта"]` for `15 марта 1925` |
| Completeness.LowerCaseNameExample | backend/main.py:111-112 | `findall` with the name pattern reports all of `иванов петр\nсергеевич` as one name |
| Chars.RussianLetterRanges | backend/main.py:102 | under case folding, `[А-ЯЁ]` and `[а-яё]` accept exactly `А-Я`, `Ё`, `а-я` and `ё` |
| Chars.FoldKeepsClasses | backend/main.py:88-102 | folding never changes whether a character is a digit, whitespace, a word character or a dot |
| Chars.ClassesDisjoint | backend/main.py:88-102 | digits, whitespace and Russian letters are pairwise disjoint, so no greedy run has to give characters back |
| Text.Run | backend/main.py:94 | a greedy run stops at the first character outside its class and passes only over characters of its class |
| Text.RunUnique | backend/main.py:94 | any position that closes such a run is the one the greedy run finds |
| Text.Split | backend/main.py:119 | `split('\n')` gives at least one piece, no piece contains a newline, and joining the pieces gives the text back |
| Text.Join | backend/main.py:125 | `'\n'.join`: characterised by `Text.Split` (joining the pieces of a split gives the text back), `Text.SplitJoin` and `Text.JoinNewlines` |
| Text.JoinNewlines | backend/main.py:125 | joining newline-free lines puts exactly one newline between neighbours and none elsewhere |
| Text.SplitJoin | backend/main.py:125 | splitting a join of newline-free lines gives the lines back |
| Text.SplitAround | backend/main.py:59 | splitting `a + "\n" + b` gives the pieces of `a` followed by those of `b` |
| Text.Strip | backend/main.py:122 | `strip()` removes whitespace prefix and suffix, and the result neither starts nor ends with whitespace |
| Text.StripUnique | backend/main.py:122 | any core of the string with that property is the strip |
| Text.StripIdempotent | backend/main.py:122 | stripping twice is stripping once |
| Text.StripEmptyIffBlank | backend/main.py:60 | the strip is empty exactly when every character is whitespace |
| Cleaning.CleanRecognizedText | backend/main.py:116-125 | an empty text comes back unchanged; any other comes back as `Cleaned(text)`, the join of the surviving stripped lines |
| Cleaning.CleanLines | backend/main.py:120-124 | the loop collects exactly `KeptLines(lines)`: the stripped lines longer than two characters, in order |
| Cleaning.KeptLinesStep | backend/main.py:121-124 | one turn of the loop appends the stripped line when it is longer than two characters and nothing otherwise |
| Cleaning.KeptLinesAppend | backend/main.py:121-124 | cleaning two runs of lines one after the other concatenates what survives of each, so order is kept |
| Cleaning.KeptLinesSound | backend/main.py:121-124 | every output line is the strip of some input line and longer than two characters |
| Cleaning.KeptLinesComplete | backend/main.py:121-124 | every input line whose strip is longer than two characters contributes that strip |
| Cleaning.KeptLinesMembers | backend/main.py:121-124 | a line is in the output if and only if it is longer than two characters and is the strip of an input line |
| Cleaning.KeptLinesFewer | backend/main.py:121-124 | never more lines come out than went in |
| Cleaning.KeptLinesClean | backend/main.py:122-124 | every output line is its own strip, is longer than two characters and contains no newline |
| Cleaning.KeptLinesFixed | backend/main.py:121-124 | lines that are already stripped and longer than two characters all survive unchanged |
| Cleaning.CleanedLines | backend/main.py:119-125 | the lines of a cleaned non-empty text are exactly the surviving stripped lines, unless none survives and the result is empty |
| Cleaning.CleanedLinesClean | backend/main.py:116-125 | every line of the cleaned text is stripped, longer than two characters and newline-free, or the result is empty |
| Cleaning.CleanedFewerLines | backend/main.py:116-125 | the cleaned text has at most as many lines as the original |
| Cleaning.CleanedIdempotent | backend/main.py:116-125 | cleaning a cleaned text changes nothing |
| Export.ExportDocument | backend/main.py:57-61 | the document has the fixed heading at level 0 and exactly `Paragraphs(text)` as its paragraphs |
| Export.NonBlankLines | backend/main.py:59-61 | the loop collects exactly `NonBlank(lines)`: the lines that are not blank, unchanged and in order |
| Export.NonBlankStep | backend/main.py:59-61 | one turn of the loop appends a line that is not blank and skips a blank one |
| Export.NonBlankAppend | backend/main.py:59-61 | filtering two runs of lines one after the other concatenates what survives of each |
| Export.NonBlankMembers | backend/main.py:59-61 | a line is a paragraph if and only if it is one of the lines and its strip is not empty |
| Export.NonBlankFewer | backend/main.py:59-61 | never more paragraphs than lines |
| Export.ParagraphsMembers | backend/main.py:59-61 | the paragraphs are exactly the lines of the text that are not all whitespace, each unstripped and newline-free, and there are no more of them than lines |
| Export.ParagraphsInOrder | backend/main.py:59-61 | the paragraphs of `a` come before those of `b` when the text is `a`, a newline, `b` |

## Left out

- The HTTP layer is not modelled, for it is outside the text handling: the FastAPI app, CORS, the route handlers, the image-type gate, the mapping of exceptions to status 500 and the JSON responses.
- `recognize_text_simple` is not modelled. It is image decoding, resampling, temporary files and a call to the `tesseract` program, which are all foreign calls and I/O.
- The `python-docx` calls are not modelled: `Document`, `add_heading`, `add_paragraph` and `save`. `Export.ExportDocument` presents the document as a value that holds its heading, heading level and paragraphs; the file format is left to the library.
- `contents.hex()` in the upload response is not modelled.
- Cleaning.CleanRecognizedText: takes a string. The `not text` test is modelled for the empty string only, and a `None` argument is not modelled.
- Chars.IsDigit: `\d` is restricted to ASCII digits. Python also accepts the decimal digits of other scripts.
- Chars.IsWordChar: `\b` sees only ASCII letters and digits, `_` and the Cyrillic blocks as word characters. Python counts every Unicode alphanumeric character.
- Chars.Fold: `re.IGNORECASE` is modelled as lower-casing ASCII and U+0400–U+042F. The further case equivalences of Python's engine are not modelled, such as the historic Cyrillic letters in U+1C80–U+1C88.
- Extraction.ToDict: a Dafny `map` has no order, so the insertion order of the dictionary's keys (`dates`, `names`, `archive_codes`, `places`), which the JSON response keeps, is not modelled.
- `extract_structured_data` and the other functions only read and return values, so there is no concurrency to model.
