/**
 * The string operations the core borrows from Python: runs of one character class,
 * `str.split('\n')`, `'\n'.join(...)` and `str.strip()`.
 */
module Text {
  import opened Chars

  /** Every character of `t` belongs to class `k`. */
  predicate All(t: string, k: CharClass) {
    forall n :: 0 <= n < |t| ==> InClass(t[n], k)
  }

  /**
   * The end of the longest run of class-`k` characters that starts at `i`: the
   * position a greedy `\d+`, `\s*` or `[а-яё]+` stops at.
   */
  function Run(s: string, i: nat, k: CharClass): (j: nat)
    requires i <= |s|
    ensures i <= j <= |s|
    ensures forall n :: i <= n < j ==> InClass(s[n], k)
    ensures j == |s| || !InClass(s[j], k)
    decreases |s| - i
  {
    if i < |s| && InClass(s[i], k) then Run(s, i + 1, k) else i
  }

  /** Any position that closes a run of class `k` from `i` is the one `Run` finds. */
  lemma {:induction false} RunUnique(s: string, i: nat, j: nat, k: CharClass)
    requires i <= j <= |s|
    requires forall n :: i <= n < j ==> InClass(s[n], k)
    requires j == |s| || !InClass(s[j], k)
    ensures Run(s, i, k) == j
    decreases j - i
  {
    if i < j {
      RunUnique(s, i + 1, j, k);
    }
  }

  /** The start of the longest run of class-`k` characters that ends at `j`. */
  function RunBack(s: string, j: nat, k: CharClass): (i: nat)
    requires j <= |s|
    ensures i <= j
    ensures forall n :: i <= n < j ==> InClass(s[n], k)
    ensures i == 0 || !InClass(s[i - 1], k)
  {
    if j > 0 && InClass(s[j - 1], k) then RunBack(s, j - 1, k) else j
  }

  /** Any position that opens a run of class `k` ending at `j` is the one `RunBack` finds. */
  lemma {:induction false} RunBackUnique(s: string, i: nat, j: nat, k: CharClass)
    requires i <= j <= |s|
    requires forall n :: i <= n < j ==> InClass(s[n], k)
    requires i == 0 || !InClass(s[i - 1], k)
    ensures RunBack(s, j, k) == i
  {
    if i < j {
      RunBackUnique(s, i, j - 1, k);
    }
  }

  // ---------------------------------------------------------------------------
  // str.split('\n') and '\n'.join(...)

  /** The position of the first `'\n'` at or after `i`, or `|s|` when there is none. */
  function LineEnd(s: string, i: nat): (j: nat)
    requires i <= |s|
    ensures i <= j <= |s|
    ensures forall n :: i <= n < j ==> s[n] != '\n'
    ensures j == |s| || s[j] == '\n'
    decreases |s| - i
  {
    if i < |s| && s[i] != '\n' then LineEnd(s, i + 1) else i
  }

  /** `'\n'.join(lines)`. */
  function Join(lines: seq<string>): string
  {
    if |lines| == 0 then ""
    else if |lines| == 1 then lines[0]
    else lines[0] + "\n" + Join(lines[1..])
  }

  /**
   * `s.split('\n')`: the pieces between newlines. There is always at least one
   * piece (the empty string splits into `[""]`), no piece holds a newline, and
   * joining the pieces gives `s` back.
   */
  function Split(s: string): (lines: seq<string>)
    ensures |lines| >= 1
    ensures forall l :: l in lines ==> '\n' !in l
    ensures Join(lines) == s
    decreases |s|
  {
    var j := LineEnd(s, 0);
    if j == |s| then
      assert '\n' !in s;
      [s]
    else
      var rest := Split(s[j + 1..]);
      assert ([s[..j]] + rest)[1..] == rest;
      assert s == s[..j] + "\n" + s[j + 1..];
      [s[..j]] + rest
  }

  /** Splitting a join of newline-free lines gives the lines back. */
  lemma {:induction false} SplitJoin(lines: seq<string>)
    requires |lines| >= 1
    requires forall l :: l in lines ==> '\n' !in l
    ensures Split(Join(lines)) == lines
  {
    var s := Join(lines);
    var a := lines[0];
    var j := LineEnd(s, 0);
    assert forall n :: 0 <= n < |a| ==> a[n] != '\n' by {
      forall n | 0 <= n < |a| ensures a[n] != '\n' { assert a[n] in a; }
    }
    if |lines| > 1 {
      var rest := lines[1..];
      assert s == a + "\n" + Join(rest);
      assert s[|a|] == '\n';
      assert j == |a|;
      assert s[..j] == a;
      assert s[j + 1..] == Join(rest);
      forall l | l in rest ensures '\n' !in l {
        assert l in lines;
      }
      SplitJoin(rest);
      assert lines == [a] + rest;
    }
  }

  /** Joining newline-free lines puts exactly one newline between neighbours and no other. */
  lemma {:induction false} JoinNewlines(lines: seq<string>)
    requires lines != [] && forall k :: 0 <= k < |lines| ==> '\n' !in lines[k]
    ensures multiset(Join(lines))['\n'] == |lines| - 1
    decreases |lines|
  {
    if |lines| > 1 {
      var rest := lines[1..];
      assert forall k :: 0 <= k < |rest| ==> rest[k] == lines[k + 1];
      JoinNewlines(rest);
      assert Join(lines) == lines[0] + "\n" + Join(rest);
      assert multiset(Join(lines)) == multiset(lines[0]) + multiset("\n") + multiset(Join(rest));
    }
  }

  /** Joining `a ++ b` puts one newline between the two joins. */
  lemma {:induction false} JoinAppend(a: seq<string>, b: seq<string>)
    requires |a| >= 1 && |b| >= 1
    ensures Join(a + b) == Join(a) + "\n" + Join(b)
  {
    if |a| == 1 {
      assert (a + b)[1..] == b;
    } else {
      assert (a + b)[1..] == a[1..] + b;
      JoinAppend(a[1..], b);
    }
  }

  /** Splitting distributes over a newline: the pieces of `a` come first, then those of `b`. */
  lemma SplitAround(a: string, b: string)
    ensures Split(a + "\n" + b) == Split(a) + Split(b)
  {
    var xs := Split(a) + Split(b);
    JoinAppend(Split(a), Split(b));
    forall l | l in xs ensures '\n' !in l {
      if l in Split(a) { } else { assert l in Split(b); }
    }
    SplitJoin(xs);
  }

  // ---------------------------------------------------------------------------
  // str.strip()

  /** `t` is `s` with a (possibly empty) whitespace prefix and suffix removed, starting at `i`. */
  predicate IsCoreAt(s: string, i: nat, t: string) {
    i + |t| <= |s| && s[i..i + |t|] == t && All(s[..i], Space) && All(s[i + |t|..], Space)
  }

  /**
   * `s.strip()` without arguments. The result is a slice of `s` that leaves only
   * whitespace outside it, and it neither starts nor ends with whitespace.
   */
  function Strip(s: string): (t: string)
    ensures exists i :: IsCoreAt(s, i, t)
    ensures t == [] || (!IsSpace(t[0]) && !IsSpace(t[|t| - 1]))
  {
    var i := Run(s, 0, Space);
    if i == |s| then
      assert IsCoreAt(s, |s|, []);
      []
    else
      var j := RunBack(s, |s|, Space);
      assert IsCoreAt(s, i, s[i..j]);
      s[i..j]
  }

  /**
   * The converse: whenever `s` is whitespace, then `t`, then whitespace, with `t`
   * empty or neither starting nor ending with whitespace, `t` is `s.strip()`.
   */
  lemma StripUnique(s: string, i: nat, t: string)
    requires IsCoreAt(s, i, t)
    requires t == [] || (!IsSpace(t[0]) && !IsSpace(t[|t| - 1]))
    ensures Strip(s) == t
  {
    var j := i + |t|;
    assert forall n :: 0 <= n < i ==> InClass(s[n], Space) by {
      forall n | 0 <= n < i ensures InClass(s[n], Space) { assert s[..i][n] == s[n]; }
    }
    assert forall n :: j <= n < |s| ==> InClass(s[n], Space) by {
      forall n | j <= n < |s| ensures InClass(s[n], Space) { assert s[j..][n - j] == s[n]; }
    }
    if t == [] {
      RunUnique(s, 0, |s|, Space);
    } else {
      assert s[i] == t[0] && s[j - 1] == t[|t| - 1];
      RunUnique(s, 0, i, Space);
      RunBackUnique(s, j, |s|, Space);
    }
  }

  /** Stripping is idempotent. */
  lemma StripIdempotent(s: string)
    ensures Strip(Strip(s)) == Strip(s)
  {
    var t := Strip(s);
    assert IsCoreAt(t, 0, t);
    StripUnique(t, 0, t);
  }

  /** Stripping a newline-free string leaves it newline-free. */
  lemma StripKeepsNoNewline(s: string)
    requires '\n' !in s
    ensures '\n' !in Strip(s)
  {
    var t := Strip(s);
    var i: nat :| IsCoreAt(s, i, t);
  }

  /** A stripped string is blank exactly when every character of the original is whitespace. */
  lemma StripEmptyIffBlank(s: string)
    ensures Strip(s) == [] <==> All(s, Space)
  {
    var t := Strip(s);
    var i: nat :| IsCoreAt(s, i, t);
    if t == [] {
      forall n | 0 <= n < |s| ensures InClass(s[n], Space) {
        if n < i { assert s[..i][n] == s[n]; } else { assert s[i..][n - i] == s[n]; }
      }
    }
  }
}
