/**
 * `extract_structured_data`: run the three date patterns, the five archive
 * patterns and the name pattern over the text, collect every category's findings
 * in pattern order, and leave `places` empty.
 */
module Extraction {
  import opened Chars
  import opened Text
  import opened Patterns
  import opened Shapes
  import opened Scanning
  import opened CaseFolding
  import opened Seqs

  /** The four categories of the result, in the order of their keys. */
  datatype Entities = Entities(dates: seq<string>, names: seq<string>, archiveCodes: seq<string>, places: seq<string>)

  const DatePatterns: seq<Pattern> := [DayMonthYear, YearAbbrev, NumericDate]
  const ArchivePatterns: seq<Pattern> := [Fond, Opis, Delo, FondWord, StorageUnit]
  const NamePatterns: seq<Pattern> := [FullName]

  /** The dictionary the function returns, with the keys it is built with. */
  function ToDict(e: Entities): (d: map<string, seq<string>>)
    ensures d.Keys == {"dates", "names", "archive_codes", "places"}
  {
    map["dates" := e.dates, "names" := e.names, "archive_codes" := e.archiveCodes, "places" := e.places]
  }

  /** What `findall` reports for a pattern in `s`. */
  function Finder(s: string): (f: Pattern -> seq<string>)
  {
    p => FindAll(p, s)
  }

  /** What `findall` reports for each pattern of `ps` in turn, one list after the other. */
  function FindAllEach(ps: seq<Pattern>, s: string): seq<string>
  {
    ConcatMap(Finder(s), ps)
  }

  /** The result of `extract_structured_data(text)`. */
  function Extract(text: string): Entities
  {
    Entities(FindAllEach(DatePatterns, text), FindAllEach(NamePatterns, text), FindAllEach(ArchivePatterns, text), [])
  }

  /**
   * One of the three loops: extend the list under `key` by what `find` reports for
   * each pattern of `ps`.
   */
  method ExtendEach(entities: map<string, seq<string>>, key: string, ps: seq<Pattern>, find: Pattern -> seq<string>)
    returns (r: map<string, seq<string>>)
    requires key in entities
    ensures r == entities[key := entities[key] + ConcatMap(find, ps)]
  {
    r := entities;
    assert ps[..0] == [] && entities[key] + [] == entities[key];
    assert r.Keys == entities[key := entities[key]].Keys;
    for k := 0 to |ps|
      invariant r == entities[key := entities[key] + ConcatMap(find, ps[..k])]
    {
      ConcatMapStep(find, ps, k);
      var found := find(ps[k]);
      assert (entities[key] + ConcatMap(find, ps[..k])) + found == entities[key] + ConcatMap(find, ps[..k + 1]);
      r := r[key := r[key] + found];
    }
    assert ps[..|ps|] == ps;
  }

  /**
   * The body of the function with `find(p)` standing for `re.findall(p, text,
   * re.IGNORECASE)`: start from the four empty lists and run the three loops.
   */
  method Collect(find: Pattern -> seq<string>) returns (entities: map<string, seq<string>>)
    ensures entities == ToDict(Entities(ConcatMap(find, DatePatterns), ConcatMap(find, NamePatterns), ConcatMap(find, ArchivePatterns), []))
  {
    ghost var dates, codes, names := ConcatMap(find, DatePatterns), ConcatMap(find, ArchivePatterns), ConcatMap(find, NamePatterns);
    entities := map["dates" := [], "names" := [], "archive_codes" := [], "places" := []];
    entities := ExtendEach(entities, "dates", DatePatterns, find);
    entities := ExtendEach(entities, "archive_codes", ArchivePatterns, find);
    entities := ExtendEach(entities, "names", NamePatterns, find);
    assert [] + dates == dates && [] + codes == codes && [] + names == names;
    ghost var d := ToDict(Entities(dates, names, codes, []));
    assert entities.Keys == d.Keys;
    assert entities["dates"] == d["dates"] && entities["names"] == d["names"];
    assert entities["archive_codes"] == d["archive_codes"] && entities["places"] == d["places"];
  }

  /** `extract_structured_data(text)`. */
  method ExtractStructuredData(text: string) returns (entities: map<string, seq<string>>)
    ensures entities == ToDict(Extract(text))
  {
    entities := Collect(Finder(text));
  }

  // ---------------------------------------------------------------------------

  /** Running two lists of patterns one after the other concatenates their findings. */
  lemma FindAllEachAppend(ps: seq<Pattern>, qs: seq<Pattern>, s: string)
    ensures FindAllEach(ps + qs, s) == FindAllEach(ps, s) + FindAllEach(qs, s)
  {
    ConcatMapAppend(Finder(s), ps, qs);
  }

  /**
   * Each category lists the findings of its patterns in the order the patterns are
   * written, every pattern's own findings in the order of their place in the text.
   */
  lemma ExtractInPatternOrder(text: string)
    ensures Extract(text).dates
      == FindAll(DayMonthYear, text) + FindAll(YearAbbrev, text) + FindAll(NumericDate, text)
    ensures Extract(text).archiveCodes
      == FindAll(Fond, text) + FindAll(Opis, text) + FindAll(Delo, text)
         + FindAll(FondWord, text) + FindAll(StorageUnit, text)
    ensures Extract(text).names == FindAll(FullName, text)
    ensures Extract(text).places == []
  {
    var f := Finder(text);
    ConcatMapThree(f, DayMonthYear, YearAbbrev, NumericDate);
    ConcatMapFive(f, Fond, Opis, Delo, FondWord, StorageUnit);
    ConcatMapOne(f, FullName);
  }

  /** Every finding of a list of patterns has the shape of one of them. */
  lemma FindAllEachShapes(ps: seq<Pattern>, s: string)
    ensures forall e :: e in FindAllEach(ps, s) ==> exists p :: p in ps && Shape(p, e)
  {
    ConcatMapSound(Finder(s), ps);
    forall e | e in FindAllEach(ps, s) ensures exists p :: p in ps && Shape(p, e) {
      var p :| p in ps && e in Finder(s)(p);
      FindAllShapes(p, s);
    }
  }

  /**
   * Every date is a bare month name (the first pattern reports only its group), a
   * year followed by `г.`, or a numeric `D.M.YYYY` date.
   */
  lemma DatesShape(text: string)
    ensures forall e :: e in Extract(text).dates ==> IsMonthName(e) || IsYearAbbrevText(e) || IsNumericDateText(e)
  {
    FindAllEachShapes(DatePatterns, text);
  }

  /** An archive abbreviation, in any case, at the start of `e`. */
  predicate StartsWithAbbreviation(e: string) {
    LiteralAt(e, 0, "ф.") || LiteralAt(e, 0, "оп.") || LiteralAt(e, 0, "д.")
    || LiteralAt(e, 0, "фонд") || LiteralAt(e, 0, "ед.")
  }

  lemma AbbrevNumberEnds(e: string, lit: string)
    requires IsAbbrevNumber(e, lit)
    ensures LiteralAt(e, 0, lit) && |e| > 0 && IsDigit(e[|e| - 1])
  {
    var j: nat :| AbbrevNumberSplit(e, lit, j);
    assert e[j..][|e| - 1 - j] == e[|e| - 1];
  }

  lemma StorageUnitEnds(e: string)
    requires IsStorageUnitText(e)
    ensures LiteralAt(e, 0, "ед.") && |e| > 0 && IsDigit(e[|e| - 1])
  {
    var j1: nat, j2: nat :| StorageUnitSplit(e, j1, j2);
    AbbrevNumberEnds(e[j1..], "хр.");
    assert e[j1..][|e| - 1 - j1] == e[|e| - 1];
  }

  /**
   * Every archive code starts with one of the five abbreviations, in any case, and
   * ends in a digit.
   */
  lemma ArchiveCodesShape(text: string)
    ensures forall e :: e in Extract(text).archiveCodes ==>
      StartsWithAbbreviation(e) && |e| > 0 && IsDigit(e[|e| - 1])
  {
    FindAllEachShapes(ArchivePatterns, text);
    forall e | e in Extract(text).archiveCodes ensures StartsWithAbbreviation(e) && |e| > 0 && IsDigit(e[|e| - 1]) {
      var p :| p in ArchivePatterns && Shape(p, e);
      ArchiveShapeEnds(p, e);
    }
  }

  /** The abbreviation an archive pattern begins with (empty for the other patterns). */
  function Abbreviation(p: Pattern): (r: string)
    ensures r != [] <==> p in ArchivePatterns
  {
    match p
    case Fond => "ф."
    case Opis => "оп."
    case Delo => "д."
    case FondWord => "фонд"
    case StorageUnit => "ед."
    case _ => []
  }

  lemma ArchiveShapeEnds(p: Pattern, e: string)
    requires p in ArchivePatterns && Shape(p, e)
    ensures LiteralAt(e, 0, Abbreviation(p)) && StartsWithAbbreviation(e)
    ensures |e| > 0 && IsDigit(e[|e| - 1])
  {
    match p
    case Fond => AbbrevNumberEnds(e, "ф.");
    case Opis => AbbrevNumberEnds(e, "оп.");
    case Delo => AbbrevNumberEnds(e, "д.");
    case FondWord => AbbrevNumberEnds(e, "фонд");
    case StorageUnit => StorageUnitEnds(e);
  }

  /** Every name is three runs of Russian letters, each at least two long, separated by whitespace. */
  lemma NamesShape(text: string)
    ensures forall e :: e in Extract(text).names ==> IsFullNameText(e)
  {
    var names := FindAllEach(NamePatterns, text);
    assert Extract(text).names == names;
    FindAllEachShapes(NamePatterns, text);
    forall e | e in names ensures IsFullNameText(e) {
      var p :| p in NamePatterns && Shape(p, e);
      assert p == FullName;
    }
  }

  /** Two texts equal up to case give findings equal up to case, list by list. */
  lemma {:induction false} FindAllEachSameFold(ps: seq<Pattern>, s: string, t: string)
    requires SameFold(s, t)
    ensures |FindAllEach(ps, s)| == |FindAllEach(ps, t)|
    ensures forall k :: 0 <= k < |FindAllEach(ps, s)| ==> SameFold(FindAllEach(ps, s)[k], FindAllEach(ps, t)[k])
    decreases |ps|
  {
    if ps != [] {
      var init := ps[..|ps| - 1];
      var last := ps[|ps| - 1];
      FindAllEachSameFold(init, s, t);
      FindAllSameFold(last, s, t);
      var a, b := FindAllEach(init, s), FindAll(last, s);
      var a', b' := FindAllEach(init, t), FindAll(last, t);
      forall k | 0 <= k < |a + b| ensures SameFold((a + b)[k], (a' + b')[k]) {
        if k >= |a| {
          assert (a + b)[k] == b[k - |a|] && (a' + b')[k] == b'[k - |a|];
        }
      }
    }
  }

  /**
   * `re.IGNORECASE`: a text and the same text in other cases give the same number
   * of entities in every category, each equal to its partner up to case.
   */
  lemma ExtractSameFold(s: string, t: string)
    requires SameFold(s, t)
    ensures |Extract(s).dates| == |Extract(t).dates|
    ensures |Extract(s).names| == |Extract(t).names|
    ensures |Extract(s).archiveCodes| == |Extract(t).archiveCodes|
    ensures forall k :: 0 <= k < |Extract(s).dates| ==> SameFold(Extract(s).dates[k], Extract(t).dates[k])
    ensures forall k :: 0 <= k < |Extract(s).names| ==> SameFold(Extract(s).names[k], Extract(t).names[k])
    ensures forall k :: 0 <= k < |Extract(s).archiveCodes| ==>
      SameFold(Extract(s).archiveCodes[k], Extract(t).archiveCodes[k])
  {
    FindAllEachSameFold(DatePatterns, s, t);
    FindAllEachSameFold(NamePatterns, s, t);
    FindAllEachSameFold(ArchivePatterns, s, t);
  }

  /** An empty text has no entities. */
  lemma ExtractEmpty()
    ensures Extract("") == Entities([], [], [], [])
  {
    forall p ensures FindAll(p, "") == [] {
    }
    ExtractInPatternOrder("");
  }
}
