/** The JavaScript string operations the modelled code relies on: `trim`,
    `toLowerCase` (restricted to ASCII letters, which is all the lookups
    below can distinguish), `length` in UTF-16 code units, and
    `substring`/`slice` with their index clamping. */
module Text {

  /** The characters `String.prototype.trim` removes: ECMAScript's
      WhiteSpace (tab, vertical tab, form feed, space, no-break space,
      byte order mark and the other space separators) and LineTerminator. */
  predicate IsJsWhitespace(c: char) {
    || c == '\t' || c == '\n' || c == '\U{000B}' || c == '\U{000C}' || c == '\r'
    || c == ' ' || c == '\U{00A0}' || c == '\U{1680}'
    || ('\U{2000}' <= c <= '\U{200A}')
    || c == '\U{2028}' || c == '\U{2029}' || c == '\U{202F}' || c == '\U{205F}'
    || c == '\U{3000}' || c == '\U{FEFF}'
  }

  predicate AllWhitespace(s: string) {
    forall i :: 0 <= i < |s| ==> IsJsWhitespace(s[i])
  }

  /** The number of whitespace characters at the front of `s`. */
  function LeadingWhitespace(s: string): (n: nat)
    ensures n <= |s|
  {
    if s != [] && IsJsWhitespace(s[0]) then 1 + LeadingWhitespace(s[1..]) else 0
  }

  /** The number of whitespace characters at the back of `s`. */
  function TrailingWhitespace(s: string): (n: nat)
    ensures n <= |s|
  {
    if s != [] && IsJsWhitespace(s[|s| - 1]) then 1 + TrailingWhitespace(s[..|s| - 1]) else 0
  }

  /** The leading count covers whitespace only and stops at the first other
      character. */
  lemma {:induction false} LeadingWhitespaceSpec(s: string)
    ensures var n := LeadingWhitespace(s);
            AllWhitespace(s[..n]) && (n < |s| ==> !IsJsWhitespace(s[n]))
  {
    if s != [] && IsJsWhitespace(s[0]) {
      var n := LeadingWhitespace(s);
      LeadingWhitespaceSpec(s[1..]);
      forall k | 0 <= k < n ensures IsJsWhitespace(s[..n][k]) {
        if k > 0 {
          assert s[..n][k] == s[1..][..n - 1][k - 1];
        }
      }
      assert n < |s| ==> s[n] == s[1..][n - 1];
    }
  }

  /** The trailing count covers whitespace only and stops at the last other
      character. */
  lemma {:induction false} TrailingWhitespaceSpec(s: string)
    ensures var n := TrailingWhitespace(s);
            AllWhitespace(s[|s| - n..]) && (n < |s| ==> !IsJsWhitespace(s[|s| - n - 1]))
  {
    if s != [] && IsJsWhitespace(s[|s| - 1]) {
      var n := TrailingWhitespace(s);
      var init := s[..|s| - 1];
      TrailingWhitespaceSpec(init);
      var tail := s[|s| - n..];
      forall k | 0 <= k < n ensures IsJsWhitespace(tail[k]) {
        if k < n - 1 {
          assert tail[k] == init[|init| - (n - 1)..][k];
        }
      }
      assert n < |s| ==> s[|s| - n - 1] == init[|init| - (n - 1) - 1];
    }
  }

  /** `String.prototype.trim`: the whitespace at both ends cut off. */
  function Trim(s: string): (r: string)
    ensures |r| <= |s|
  {
    var i := LeadingWhitespace(s);
    var t := s[i..];
    t[..|t| - TrailingWhitespace(t)]
  }

  /** What `Trim` keeps is the slice `s[i..i + |r|]`, `i` being the length of
      the leading whitespace; everything cut is whitespace and neither end
      of what is kept is. */
  lemma TrimSpec(s: string)
    ensures var r := Trim(s);
            var i := LeadingWhitespace(s);
            && i + |r| <= |s|
            && r == s[i..i + |r|]
            && AllWhitespace(s[..i]) && AllWhitespace(s[i + |r|..])
            && (r != [] ==> !IsJsWhitespace(r[0]) && !IsJsWhitespace(r[|r| - 1]))
  {
    var i := LeadingWhitespace(s);
    var t := s[i..];
    var j := TrailingWhitespace(t);
    var r := Trim(s);
    LeadingWhitespaceSpec(s);
    TrailingWhitespaceSpec(t);
    SuffixSlices(s, i, |t| - j);
    if r != [] {
      assert r[0] == t[0];
      assert r[|r| - 1] == t[|t| - j - 1];
    }
  }

  /** Slicing a suffix `s[i..]` at `k` slices `s` at `i + k`. */
  lemma SuffixSlices(s: string, i: nat, k: nat)
    requires i + k <= |s|
    ensures s[i..][..k] == s[i..i + k] && s[i..][k..] == s[i + k..]
  {
  }

  /** A string with neither end whitespace is its own trim. */
  lemma TrimOfTrimmed(s: string)
    requires s != [] ==> !IsJsWhitespace(s[0]) && !IsJsWhitespace(s[|s| - 1])
    ensures Trim(s) == s
  {
    assert LeadingWhitespace(s) == 0;
    assert s[0..] == s;
    assert TrailingWhitespace(s) == 0;
  }

  /** Trimming twice is trimming once. */
  lemma TrimIdempotent(s: string)
    ensures Trim(Trim(s)) == Trim(s)
  {
    TrimSpec(s);
    TrimOfTrimmed(Trim(s));
  }

  /** A string trims to the empty string exactly when it is all whitespace. */
  lemma TrimEmptyIff(s: string)
    ensures Trim(s) == [] <==> AllWhitespace(s)
  {
    var r := Trim(s);
    var i := LeadingWhitespace(s);
    TrimSpec(s);
    if r == [] {
      WhitespaceJoin(s, i);
    } else {
      assert s[i] == r[0];
    }
  }

  /** Whitespace on both sides of a cut makes the whole string whitespace. */
  lemma WhitespaceJoin(s: string, i: nat)
    requires i <= |s| && AllWhitespace(s[..i]) && AllWhitespace(s[i..])
    ensures AllWhitespace(s)
  {
    forall k | 0 <= k < |s| ensures IsJsWhitespace(s[k]) {
      if k < i { assert s[k] == s[..i][k]; } else { assert s[k] == s[i..][k - i]; }
    }
  }

  /** The length JavaScript reports for a string: the number of UTF-16 code
      units, two for every character outside the Basic Multilingual Plane. */
  function Utf16Length(s: string): (n: nat)
    ensures |s| <= n <= 2 * |s|
  {
    if s == [] then 0
    else (if s[0] as int > 0xFFFF then 2 else 1) + Utf16Length(s[1..])
  }

  function LowerChar(c: char): char {
    if 'A' <= c <= 'Z' then (c as int + 32) as char else c
  }

  /** `String.prototype.toLowerCase` on ASCII letters; every other character
      is kept. */
  function AsciiLower(s: string): (r: string)
    ensures |r| == |s|
    ensures forall i :: 0 <= i < |s| ==> r[i] == LowerChar(s[i])
  {
    seq(|s|, i requires 0 <= i < |s| => LowerChar(s[i]))
  }

  /** A string already in lower case is its own lower-case form. */
  lemma AsciiLowerOfLower(s: string)
    requires forall i :: 0 <= i < |s| ==> !('A' <= s[i] <= 'Z')
    ensures AsciiLower(s) == s
  {
  }

  function Clamp(k: int, len: nat): (r: nat)
    ensures r <= len
  {
    if k < 0 then 0 else if k > len then len else k
  }

  /** `s.substring(start, end)`: both bounds clamped to `[0, |s|]`, and
      swapped when the first exceeds the second. */
  function Substring(s: string, start: int, end: int): (r: string)
    ensures |r| <= |s|
  {
    var a, b := Clamp(start, |s|), Clamp(end, |s|);
    if a <= b then s[a..b] else s[b..a]
  }

  /** `s.substring(start)`, also `s.slice(start)` for `start >= -|s|`. */
  function SubstringFrom(s: string, start: int): string {
    s[Clamp(start, |s|)..]
  }
}
