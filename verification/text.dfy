/** The JavaScript string primitives the source relies on: the white space
    that `trim()` and `\s` recognise, the ASCII classes of regular
    expressions without the `u` flag (`\d`, `\w`), ASCII case-insensitive
    matching (the `i` flag), `slice(0, n)` and `Array.prototype.join`. */
module Text {

  /** ECMAScript WhiteSpace and LineTerminator code points: what `trim()`
      strips and what `\s` matches. */
  predicate IsSpace(c: char) {
    || c == ' ' || c == '\t' || c == '\n' || c == '\r'
    || c == '\U{000B}' || c == '\U{000C}' || c == '\U{00A0}' || c == '\U{1680}'
    || ('\U{2000}' <= c <= '\U{200A}')
    || c == '\U{2028}' || c == '\U{2029}' || c == '\U{202F}' || c == '\U{205F}'
    || c == '\U{3000}' || c == '\U{FEFF}'
  }

  /** `\d` and `[0-9]`. */
  predicate IsDigit(c: char) {
    '0' <= c <= '9'
  }

  /** `\w`, the characters a `\b` word boundary separates from the rest. */
  predicate IsWordChar(c: char) {
    IsDigit(c) || ('a' <= c <= 'z') || ('A' <= c <= 'Z') || c == '_'
  }

  /** The characters `.` does not match. */
  predicate IsLineTerminator(c: char) {
    c == '\n' || c == '\r' || c == '\U{2028}' || c == '\U{2029}'
  }

  predicate AllSpace(s: string) {
    forall k | 0 <= k < |s| :: IsSpace(s[k])
  }

  /** The `i` flag on an ASCII pattern: only ASCII letters fold. */
  function LowerAscii(c: char): (d: char)
    ensures 'A' <= c <= 'Z' ==> 'a' <= d <= 'z' && d as int == c as int + 32
    ensures !('A' <= c <= 'Z') ==> d == c
  {
    if 'A' <= c <= 'Z' then (c as int + 32) as char else c
  }

  /** The text at position `i` of `s` spells `w` ignoring ASCII case;
      `w` is written in lower case. */
  predicate MatchesAt(s: string, i: int, w: string) {
    0 <= i && i + |w| <= |s| && forall k | 0 <= k < |w| :: LowerAscii(s[i + k]) == w[k]
  }

  /** A case-insensitive regular expression consisting of the literal `w`
      matches somewhere in `s`. */
  predicate ContainsCI(s: string, w: string) {
    exists i | 0 <= i <= |s| - |w| :: MatchesAt(s, i, w)
  }

  /** `s` with every ASCII capital replaced by its small letter. */
  function LowerAll(s: string): (r: string)
    ensures |r| == |s|
    ensures forall k | 0 <= k < |s| :: r[k] == LowerAscii(s[k])
  {
    seq(|s|, k requires 0 <= k < |s| => LowerAscii(s[k]))
  }

  /** Matching ignoring case does not see the case of the text. */
  lemma MatchesLower(s: string, i: int, w: string)
    ensures MatchesAt(LowerAll(s), i, w) <==> MatchesAt(s, i, w)
  {
    if 0 <= i && i + |w| <= |s| {
      forall k | 0 <= k < |w|
        ensures (LowerAscii(LowerAll(s)[i + k]) == w[k]) == (LowerAscii(s[i + k]) == w[k])
      {
      }
    }
  }

  lemma ContainsLower(s: string, w: string)
    ensures ContainsCI(LowerAll(s), w) <==> ContainsCI(s, w)
  {
    forall i ensures MatchesAt(LowerAll(s), i, w) <==> MatchesAt(s, i, w) {
      MatchesLower(s, i, w);
    }
  }

  /** A word one of whose letters occurs in `s` in neither case matches
      nowhere in `s`. */
  lemma AbsentLetter(s: string, w: string, j: nat)
    requires j < |w| && w[j] !in s
    requires 'a' <= w[j] <= 'z' ==> (w[j] as int - 32) as char !in s
    ensures forall i | 0 <= i :: !MatchesAt(s, i, w)
    ensures !ContainsCI(s, w)
  {
    forall i | 0 <= i ensures !MatchesAt(s, i, w) {
      if i + |w| <= |s| {
        assert s[i + j] in s;
      }
    }
  }

  /** The number of white-space characters `s` starts with. */
  function LeadingSpaces(s: string): (n: nat)
    ensures n <= |s|
    ensures forall k | 0 <= k < n :: IsSpace(s[k])
    ensures n < |s| ==> !IsSpace(s[n])
  {
    if |s| > 0 && IsSpace(s[0]) then 1 + LeadingSpaces(s[1..]) else 0
  }

  /** The number of white-space characters `s` ends with. */
  function TrailingSpaces(s: string): (n: nat)
    ensures n <= |s|
    ensures forall k | |s| - n <= k < |s| :: IsSpace(s[k])
    ensures n < |s| ==> !IsSpace(s[|s| - 1 - n])
  {
    if |s| > 0 && IsSpace(s[|s| - 1]) then 1 + TrailingSpaces(s[..|s| - 1]) else 0
  }

  /** `String.prototype.trim`: the longest factor of `s` that neither starts
      nor ends with white space, obtained by dropping white space only. */
  function Trim(s: string): (r: string)
    ensures LeadingSpaces(s) + |r| <= |s|
    ensures r == s[LeadingSpaces(s)..LeadingSpaces(s) + |r|]
    ensures forall k | 0 <= k < |s| && !(LeadingSpaces(s) <= k < LeadingSpaces(s) + |r|) :: IsSpace(s[k])
    ensures |r| > 0 ==> !IsSpace(r[0]) && !IsSpace(r[|r| - 1])
  {
    var rest := s[LeadingSpaces(s)..];
    rest[..|rest| - TrailingSpaces(rest)]
  }

  /** Trimming twice is trimming once. */
  lemma TrimIdempotent(s: string)
    ensures Trim(Trim(s)) == Trim(s)
  {
    var r := Trim(s);
    if |r| > 0 {
      assert LeadingSpaces(r) == 0;
      assert TrailingSpaces(r) == 0;
    }
  }

  /** Trimming yields the empty string exactly when `s` is all white space. */
  lemma TrimEmpty(s: string)
    ensures Trim(s) == [] <==> AllSpace(s)
  {
  }

  /** `s.slice(0, n)`: the first `n` characters, or all of `s` if shorter. */
  function Take<T>(s: seq<T>, n: nat): (r: seq<T>)
    ensures |r| <= n && |r| <= |s|
    ensures |s| <= n ==> r == s
    ensures |s| > n ==> |r| == n
    ensures forall k | 0 <= k < |r| :: r[k] == s[k]
  {
    if |s| <= n then s else s[..n]
  }

  /** `parts.join(sep)`. */
  function JoinWith(sep: string, parts: seq<string>): string
  {
    if |parts| == 0 then ""
    else if |parts| == 1 then parts[0]
    else parts[0] + sep + JoinWith(sep, parts[1..])
  }
}
