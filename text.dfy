/**
 * The Python 2 unicode-string built-ins the transform layer relies on:
 * strip(), split(sep, 1), the `in` substring test, lower() and endswith().
 */
module Text {
  import opened Options

  /** Characters for which Python 2's unicode.isspace() holds; strip() removes exactly these. */
  predicate IsSpace(c: char) {
    || ('\t' <= c <= '\r')
    || ('\U{1C}' <= c <= ' ')
    || c == '\U{85}' || c == '\U{A0}' || c == '\U{1680}' || c == '\U{180E}'
    || ('\U{2000}' <= c <= '\U{200A}')
    || c == '\U{2028}' || c == '\U{2029}' || c == '\U{202F}' || c == '\U{205F}' || c == '\U{3000}'
  }

  /** The number of whitespace characters at the start of `s`. */
  function LeadingSpaces(s: string): (k: nat)
    ensures k <= |s|
    ensures forall i :: 0 <= i < k ==> IsSpace(s[i])
    ensures k < |s| ==> !IsSpace(s[k])
  {
    if s == [] || !IsSpace(s[0]) then 0 else 1 + LeadingSpaces(s[1..])
  }

  /** The number of whitespace characters at the end of `s`. */
  function TrailingSpaces(s: string): (k: nat)
    ensures k <= |s|
    ensures forall i :: |s| - k <= i < |s| ==> IsSpace(s[i])
    ensures k < |s| ==> !IsSpace(s[|s| - 1 - k])
  {
    if s == [] || !IsSpace(s[|s| - 1]) then 0 else 1 + TrailingSpaces(s[..|s| - 1])
  }

  /** Python's `s.strip()`: the longest infix of `s` that neither starts nor ends with whitespace. */
  function Strip(s: string): (r: string)
    ensures LeadingSpaces(s) + |r| <= |s|
    ensures r == s[LeadingSpaces(s)..LeadingSpaces(s) + |r|]
    ensures forall i :: LeadingSpaces(s) + |r| <= i < |s| ==> IsSpace(s[i])
    ensures r != [] ==> !IsSpace(r[0]) && !IsSpace(r[|r| - 1])
    ensures r == [] <==> forall i :: 0 <= i < |s| ==> IsSpace(s[i])
  {
    var t := s[LeadingSpaces(s)..];
    t[..|t| - TrailingSpaces(t)]
  }

  /** Whether `sep` occurs in `s` starting at index `i`. */
  predicate OccursAt(s: string, sep: string, i: nat) {
    i + |sep| <= |s| && s[i..i + |sep|] == sep
  }

  /** The leftmost occurrence of `sep` in `s` at or after index `i`, as Python's find scans. */
  function FindFrom(s: string, sep: string, i: nat): (r: Option<nat>)
    decreases |s| - i
    ensures r.Some? ==> i <= r.value && OccursAt(s, sep, r.value)
    ensures r.Some? ==> forall j: nat :: i <= j < r.value ==> !OccursAt(s, sep, j)
    ensures r.None? ==> forall j: nat :: i <= j ==> !OccursAt(s, sep, j)
  {
    if i + |sep| > |s| then None
    else if OccursAt(s, sep, i) then Some(i)
    else FindFrom(s, sep, i + 1)
  }

  /** Python's `sep in s`. */
  predicate Contains(s: string, sep: string) {
    FindFrom(s, sep, 0).Some?
  }

  /** An occurrence anywhere makes `sep in s` true. */
  lemma OccursThenContains(s: string, sep: string, i: nat)
    requires OccursAt(s, sep, i)
    ensures Contains(s, sep)
  {
  }

  /**
   * Python's `s.split(sep, 1)`: None when `sep` does not occur (the one-element
   * list), otherwise the parts before and after the leftmost occurrence.
   */
  function SplitFirst(s: string, sep: string): (r: Option<(string, string)>)
    ensures r.None? <==> !Contains(s, sep)
    ensures r.Some? ==> r.value.0 + sep + r.value.1 == s
    ensures r.Some? ==> forall j: nat :: j < |r.value.0| ==> !OccursAt(s, sep, j)
  {
    match FindFrom(s, sep, 0)
    case None => None
    case Some(k) =>
      assert s == s[..k] + sep + s[k + |sep|..];
      Some((s[..k], s[k + |sep|..]))
  }

  /** The split point is forced: an occurrence with none before it is the one split at. */
  lemma {:induction false} SplitFirstAt(s: string, sep: string, a: string, c: string)
    requires s == a + sep + c
    requires forall j: nat :: j < |a| ==> !OccursAt(s, sep, j)
    ensures SplitFirst(s, sep) == Some((a, c))
  {
    assert s[|a|..|a| + |sep|] == sep;
    assert OccursAt(s, sep, |a|);
    var k := FindFrom(s, sep, 0);
    assert k.Some? && k.value == |a|;
    assert s[..|a|] == a;
    assert s[|a| + |sep|..] == c;
  }

  /** Text without the separator's first character splits right after itself. */
  lemma SplitAfterPrefix(a: string, sep: string, c: string)
    requires |sep| > 0
    ensures sep[0] !in a ==> SplitFirst(a + sep + c, sep) == Some((a, c))
  {
    if sep[0] !in a {
      var s := a + sep + c;
      assert s[..|a|] == a;
      NoOccurrenceIn(s, sep, a);
      SplitFirstAt(s, sep, a, c);
    }
  }

  /**
   * Splitting at a one-character separator that occurs: the parts are the text
   * before its first occurrence and the text after it.
   */
  lemma SplitFirstChar(s: string, c: char)
    ensures c in s ==>
      exists k :: 0 <= k < |s| && s[k] == c && c !in s[..k] && SplitFirst(s, [c]) == Some((s[..k], s[k + 1..]))
  {
    ContainsChar(s, c);
    if c in s {
      var (a, rest) := SplitFirst(s, [c]).value;
      var k := |a|;
      assert s == a + [c] + rest;
      assert s[..k] == a && s[k + 1..] == rest;
      if c in a {
        var j :| 0 <= j < |a| && a[j] == c;
        assert s[j..j + 1] == [c];
        assert OccursAt(s, [c], j);
      }
    }
  }

  /** A separator whose first character does not occur in `a` cannot start inside `a`. */
  lemma NoOccurrenceIn(s: string, sep: string, a: string)
    requires |sep| > 0 && sep[0] !in a
    requires |a| <= |s| && s[..|a|] == a
    ensures forall j: nat :: j < |a| ==> !OccursAt(s, sep, j)
  {
    forall j: nat | j < |a| ensures !OccursAt(s, sep, j) {
      assert s[j] == a[j];
    }
  }

  /** For a one-character separator, Python's `c in s` is membership of the character. */
  lemma ContainsChar(s: string, c: char)
    ensures Contains(s, [c]) <==> c in s
  {
    if c in s {
      var i :| 0 <= i < |s| && s[i] == c;
      assert s[i..i + 1] == [c];
      assert OccursAt(s, [c], i);
    }
    if Contains(s, [c]) {
      var k := FindFrom(s, [c], 0).value;
      assert s[k..k + 1][0] == s[k];
    }
  }

  /** Python 2's unicode.lower() on one character, exact for every ASCII character. */
  function LowerChar(c: char): char {
    if 'A' <= c <= 'Z' then (c as int + 32) as char
    else if c == '\U{130}' then 'i'       // LATIN CAPITAL LETTER I WITH DOT ABOVE
    else if c == '\U{212A}' then 'k'      // KELVIN SIGN
    else c
  }

  /** Python's `s.lower()`, character by character. */
  function Lower(s: string): (r: string)
    ensures |r| == |s|
    ensures forall i :: 0 <= i < |s| ==> !('A' <= r[i] <= 'Z')
    ensures forall i :: 0 <= i < |s| && 'A' <= s[i] <= 'Z' ==> r[i] as int == s[i] as int + 32
    ensures forall i :: 0 <= i < |s| && !('A' <= s[i] <= 'Z') && s[i] != '\U{130}' && s[i] != '\U{212A}' ==> r[i] == s[i]
  {
    seq(|s|, i requires 0 <= i < |s| => LowerChar(s[i]))
  }

  /** Lowering twice is lowering once. */
  lemma LowerIdempotent(s: string)
    ensures Lower(Lower(s)) == Lower(s)
  {
  }

  /** Text without upper-case letters is its own lower-cased form. */
  lemma LowerOfLowercase(s: string)
    requires forall i :: 0 <= i < |s| ==> LowerChar(s[i]) == s[i]
    ensures Lower(s) == s
  {
  }

  /** Python's `s.endswith(suffix)`. */
  predicate EndsWith(s: string, suffix: string) {
    |suffix| <= |s| && s[|s| - |suffix|..] == suffix
  }
}
