/**
 * `re.findall(pattern, text)`: try the pattern at every position from left to
 * right; on a match, report its text and resume where the match ended; otherwise
 * move on by one character. The scan is written once, for any matcher.
 */
module Scanning {
  import opened Wrappers
  import opened Patterns
  import opened Shapes

  /** A recogniser: what a pattern matches when tried at a position of a text. */
  type Matcher = (string, nat) -> Option<Match>

  /** Every match the recogniser reports starts where it was tried and is non-empty. */
  ghost predicate Sound(f: Matcher) {
    forall t: string, j: nat :: f(t, j).Some? ==> ValidMatch(f(t, j).value, t, j)
  }

  /** The recogniser of one of the nine patterns. */
  function PatternMatcher(p: Pattern): (f: Matcher)
    ensures Sound(f)
  {
    (t: string, j: nat) => MatchAt(p, t, j)
  }

  /**
   * The matches the scan finds from position `i` on. Each is the match the
   * recogniser makes at its own start, and they lie in increasing order without
   * overlapping. (Python also tries the empty suffix at `|s|`; no pattern here
   * matches the empty string.)
   */
  function Scan(f: Matcher, s: string, i: nat): (ms: seq<Match>)
    requires Sound(f) && i <= |s|
    ensures forall k :: 0 <= k < |ms| ==> i <= ms[k].start <= |s| && f(s, ms[k].start) == Some(ms[k])
    ensures forall k, l :: 0 <= k < l < |ms| ==> ms[k].next <= ms[l].start
    decreases |s| - i
  {
    if i == |s| then []
    else
      match f(s, i)
      case Some(m) => [m] + Scan(f, s, m.next)
      case None => Scan(f, s, i + 1)
  }

  /** The texts the matches report, in order. */
  function Texts(s: string, ms: seq<Match>): (r: seq<string>)
    requires forall m :: m in ms ==> m.textStart <= m.textEnd <= |s|
    ensures |r| == |ms|
    ensures forall k :: 0 <= k < |ms| ==> ms[k] in ms && r[k] == s[ms[k].textStart..ms[k].textEnd]
  {
    if ms == [] then []
    else
      assert ms[0] in ms;
      [s[ms[0].textStart..ms[0].textEnd]] + Texts(s, ms[1..])
  }

  /** The matches of pattern `p` in `s`, as `re.finditer` would list them. */
  function Matches(p: Pattern, s: string): (ms: seq<Match>)
    ensures forall k :: 0 <= k < |ms| ==> ms[k].start <= |s| && MatchAt(p, s, ms[k].start) == Some(ms[k])
    ensures forall k, l :: 0 <= k < l < |ms| ==> ms[k].next <= ms[l].start
  {
    Scan(PatternMatcher(p), s, 0)
  }

  /** `re.findall(p, s, re.IGNORECASE)`. */
  function FindAll(p: Pattern, s: string): (r: seq<string>)
    ensures |r| == |Matches(p, s)|
    ensures forall k :: 0 <= k < |r| ==> r[k] == s[Matches(p, s)[k].textStart..Matches(p, s)[k].textEnd]
  {
    var ms := Matches(p, s);
    assert forall m :: m in ms ==> m.textStart <= m.textEnd <= |s|;
    Texts(s, ms)
  }

  /** Position `j` is inside one of the matches `ms`. */
  ghost predicate Covered(ms: seq<Match>, j: nat) {
    exists k :: 0 <= k < |ms| && ms[k].start <= j < ms[k].next
  }

  /**
   * The scan misses nothing: every position from `i` at which the recogniser
   * matches is the start of a reported match or lies inside one, so a match is
   * left out only when it overlaps an earlier one.
   */
  lemma {:induction false} ScanLeftmost(f: Matcher, s: string, i: nat)
    requires Sound(f) && i <= |s|
    ensures forall j :: i <= j < |s| && f(s, j).Some? ==> Covered(Scan(f, s, i), j)
    decreases |s| - i
  {
    if i < |s| {
      var ms := Scan(f, s, i);
      match f(s, i)
      case Some(m) =>
        var rest := Scan(f, s, m.next);
        ScanLeftmost(f, s, m.next);
        assert ms == [m] + rest;
        forall j | i <= j < |s| && f(s, j).Some? ensures Covered(ms, j) {
          if j < m.next {
            assert ms[0].start <= j < ms[0].next;
          } else {
            var k :| 0 <= k < |rest| && rest[k].start <= j < rest[k].next;
            assert ms[k + 1] == rest[k];
          }
        }
      case None =>
        ScanLeftmost(f, s, i + 1);
    }
  }

  /**
   * `findall` for a pattern, characterised: every reported match is the pattern's
   * match at its start, the matches are in order without overlap, and every
   * position where the pattern matches is covered by one of them.
   */
  lemma MatchesLeftmost(p: Pattern, s: string)
    ensures forall m :: m in Matches(p, s) ==> MatchAt(p, s, m.start) == Some(m)
    ensures forall k, l :: 0 <= k < l < |Matches(p, s)| ==> Matches(p, s)[k].next <= Matches(p, s)[l].start
    ensures forall j :: 0 <= j < |s| && MatchAt(p, s, j).Some? ==> Covered(Matches(p, s), j)
  {
    ScanLeftmost(PatternMatcher(p), s, 0);
  }

  /** Every text `findall` reports for `p` has the shape of `p`. */
  lemma FindAllShapes(p: Pattern, s: string)
    ensures forall e :: e in FindAll(p, s) ==> Shape(p, e)
  {
    var ms := Matches(p, s);
    forall k | 0 <= k < |ms| ensures Shape(p, FindAll(p, s)[k]) {
      MatchShape(p, s, ms[k].start);
    }
  }

  /** Every match the scan reports sits in the right surroundings. */
  lemma MatchesContexts(p: Pattern, s: string)
    ensures forall m :: m in Matches(p, s) ==> m.start <= m.next <= |s| && Context(p, s, m)
  {
    var ms := Matches(p, s);
    forall k | 0 <= k < |ms| ensures ms[k].start <= ms[k].next <= |s| && Context(p, s, ms[k]) {
      MatchShape(p, s, ms[k].start);
    }
  }
}
