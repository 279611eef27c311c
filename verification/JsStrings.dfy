/** The JavaScript string operations the room-identifier code relies on:
    the `<` order on strings (used by the default `Array.prototype.sort`),
    `split` on a one-character separator, and `replace` with a string
    pattern, which replaces only the first occurrence. */
module JsStrings {
  import opened Wrappers

  // ---------------------------------------------------------------------
  // Lexicographic order on character codes

  /** `a < b` on JavaScript strings: the first differing code decides, and a
      proper prefix is smaller. */
  predicate LexLess(a: string, b: string)
    decreases |a|
  {
    if |b| == 0 then false
    else if |a| == 0 then true
    else if a[0] != b[0] then a[0] < b[0]
    else LexLess(a[1..], b[1..])
  }

  /** `a <= b` on JavaScript strings. */
  predicate LexLessEq(a: string, b: string) {
    a == b || LexLess(a, b)
  }

  lemma {:induction false} LexLessAsymmetric(a: string, b: string)
    ensures !(LexLess(a, b) && LexLess(b, a))
    decreases |a|
  {
    if |a| > 0 && |b| > 0 && a[0] == b[0] {
      LexLessAsymmetric(a[1..], b[1..]);
    }
  }

  lemma {:induction false} LexLessTrichotomy(a: string, b: string)
    ensures LexLess(a, b) || LexLess(b, a) || a == b
    decreases |a|
  {
    if |a| > 0 && |b| > 0 && a[0] == b[0] {
      LexLessTrichotomy(a[1..], b[1..]);
      if a[1..] == b[1..] {
        assert a == [a[0]] + a[1..] && b == [b[0]] + b[1..];
      }
    }
  }

  /** `<=` is a total order: any two strings are comparable, and two strings
      each at most the other are equal. */
  lemma LexLessEqTotal(a: string, b: string)
    ensures LexLessEq(a, b) || LexLessEq(b, a)
    ensures LexLessEq(a, b) && LexLessEq(b, a) ==> a == b
  {
    LexLessTrichotomy(a, b);
    LexLessAsymmetric(a, b);
  }

  /** `[a, b].sort()` with no comparator: the insertion step swaps the two
      elements exactly when the second compares below the first. The result
      is a permutation of the input in non-decreasing order. */
  function SortPair(a: string, b: string): (r: seq<string>)
    ensures |r| == 2 && multiset(r) == multiset{a, b}
    ensures LexLessEq(r[0], r[1])
  {
    LexLessEqTotal(a, b);
    if LexLess(b, a) then [b, a] else [a, b]
  }

  /** JavaScript truthiness of a string that may be `undefined` or `null`:
      present and non-empty. */
  predicate TruthyString(s: Option<string>) {
    s.Some? && s.value != ""
  }

  // ---------------------------------------------------------------------
  // Counting and splitting on a separator character

  /** Number of occurrences of `c` in `s`. */
  function Count(s: string, c: char): nat {
    if |s| == 0 then 0
    else (if s[0] == c then 1 else 0) + Count(s[1..], c)
  }

  lemma {:induction false} CountAbsent(s: string, c: char)
    ensures Count(s, c) == 0 <==> c !in s
  {
    if |s| > 0 {
      CountAbsent(s[1..], c);
      assert s == [s[0]] + s[1..];
    }
  }

  lemma {:induction false} CountConcat(a: string, b: string, c: char)
    ensures Count(a + b, c) == Count(a, c) + Count(b, c)
  {
    if |a| > 0 {
      assert (a + b)[1..] == a[1..] + b;
      CountConcat(a[1..], b, c);
    } else {
      assert a + b == b;
    }
  }

  /** A character that occurs exactly once has separator-free text on both
      sides of that occurrence. */
  lemma {:induction false} OnlyOccurrence(s: string, c: char) returns (j: nat)
    requires Count(s, c) == 1
    ensures j < |s| && s[j] == c && c !in s[..j] && c !in s[j + 1..]
  {
    assert |s| > 0;
    if s[0] == c {
      CountAbsent(s[1..], c);
      j := 0;
    } else {
      var j' := OnlyOccurrence(s[1..], c);
      j := j' + 1;
      assert s[..j] == [s[0]] + s[1..][..j'];
      assert s[j + 1..] == s[1..][j' + 1..];
    }
  }

  /** `parts.join(sep)`. */
  function Join(parts: seq<string>, sep: char): string {
    if |parts| == 0 then ""
    else if |parts| == 1 then parts[0]
    else parts[0] + [sep] + Join(parts[1..], sep)
  }

  /** `s.split(sep)` for a one-character separator: the pieces between
      successive occurrences of `sep`. There is one more piece than there
      are separators, no piece contains `sep`, and joining the pieces with
      `sep` gives back `s`. */
  function Split(s: string, sep: char): (parts: seq<string>)
    ensures |parts| == Count(s, sep) + 1
    ensures forall i :: 0 <= i < |parts| ==> sep !in parts[i]
    ensures Join(parts, sep) == s
    decreases |s|
  {
    if |s| == 0 then [""]
    else
      var rest := Split(s[1..], sep);
      if s[0] == sep then
        assert s == [sep] + Join(rest, sep);
        [""] + rest
      else
        var parts := [[s[0]] + rest[0]] + rest[1..];
        assert parts[1..] == rest[1..];
        assert s == [s[0]] + s[1..];
        parts
  }

  /** Splitting a piece that has no separator yields just that piece. */
  lemma {:induction false} SplitSeparatorFree(a: string, sep: char)
    requires sep !in a
    ensures Split(a, sep) == [a]
  {
    CountAbsent(a, sep);
    var parts := Split(a, sep);
    assert |parts| == 1;
    assert Join(parts, sep) == parts[0];
  }

  /** A leading separator-free piece followed by the separator splits off
      as the first part. */
  lemma {:induction false} SplitAfterPiece(a: string, sep: char, b: string)
    requires sep !in a
    ensures Split(a + [sep] + b, sep) == [a] + Split(b, sep)
    decreases |a|
  {
    var s := a + [sep] + b;
    if |a| == 0 {
      assert s == [sep] + b;
      assert s[1..] == b;
    } else {
      assert s[1..] == a[1..] + [sep] + b;
      SplitAfterPiece(a[1..], sep, b);
      assert a == [a[0]] + a[1..];
    }
  }

  /** `split` inverts `join` on separator-free pieces: the pieces of a
      string are uniquely determined. */
  lemma {:induction false} SplitJoin(parts: seq<string>, sep: char)
    requires |parts| >= 1
    requires forall i :: 0 <= i < |parts| ==> sep !in parts[i]
    ensures Split(Join(parts, sep), sep) == parts
    decreases |parts|
  {
    if |parts| == 1 {
      SplitSeparatorFree(parts[0], sep);
    } else {
      SplitJoin(parts[1..], sep);
      SplitAfterPiece(parts[0], sep, Join(parts[1..], sep));
      assert parts == [parts[0]] + parts[1..];
    }
  }

  /** `s.startsWith(p)`. */
  predicate StartsWith(s: string, p: string) {
    |p| <= |s| && s[..|p|] == p
  }

  /** `s.endsWith(p)`. */
  predicate EndsWith(s: string, p: string) {
    |p| <= |s| && s[|s| - |p|..] == p
  }

  // ---------------------------------------------------------------------
  // First occurrence of a pattern, and `replace` with a string pattern

  /** `pat` occurs in `s` starting at index `i`. */
  predicate OccursAt(s: string, pat: string, i: nat) {
    i + |pat| <= |s| && s[i..i + |pat|] == pat
  }

  /** The first index at or after `k` where `pat` occurs. */
  function IndexOfFrom(s: string, pat: string, k: nat): (r: Option<nat>)
    requires k <= |s|
    ensures r.Some? ==> k <= r.value && OccursAt(s, pat, r.value)
    ensures r.Some? ==> forall j: nat :: k <= j < r.value ==> !OccursAt(s, pat, j)
    ensures r.None? ==> forall j: nat :: k <= j ==> !OccursAt(s, pat, j)
    decreases |s| - k
  {
    if OccursAt(s, pat, k) then Some(k)
    else if k == |s| then None
    else IndexOfFrom(s, pat, k + 1)
  }

  /** `s.indexOf(pat)`, with `None` for -1. */
  function IndexOf(s: string, pat: string): Option<nat> {
    IndexOfFrom(s, pat, 0)
  }

  /** Only one index can be the first occurrence, and `IndexOf` finds it. */
  lemma FirstOccurrenceUnique(s: string, pat: string, i: nat)
    requires IndexOf(s, pat) == Some(i)
    ensures forall i': nat :: OccursAt(s, pat, i') && (forall j: nat :: j < i' ==> !OccursAt(s, pat, j))
                              ==> i' == i
  {
    forall i': nat | OccursAt(s, pat, i') && (forall j: nat :: j < i' ==> !OccursAt(s, pat, j))
      ensures i' == i
    {
    }
  }

  /** `s.replace(pat, rep)` for a string `pat` and a replacement without `$`
      patterns: only the FIRST occurrence of `pat`, wherever it is, is
      replaced; a string without `pat` is returned unchanged. */
  function ReplaceFirst(s: string, pat: string, rep: string): (r: string)
    ensures (forall j: nat :: !OccursAt(s, pat, j)) ==> r == s
    ensures forall i: nat :: OccursAt(s, pat, i) && (forall j: nat :: j < i ==> !OccursAt(s, pat, j))
                        ==> r == s[..i] + rep + s[i + |pat|..]
  {
    match IndexOf(s, pat)
    case None => s
    case Some(i) =>
      FirstOccurrenceUnique(s, pat, i);
      s[..i] + rep + s[i + |pat|..]
  }
}
