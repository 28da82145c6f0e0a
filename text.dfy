/** Character classes and string helpers of the JavaScript runtime that the
    chat front end relies on: the `\s` class of regular expressions (which is
    also what `String.prototype.trim` removes), the line terminators that `.`
    refuses, `trim`, an ASCII `toLowerCase`, `includes`, `substring(0, n)`,
    `split` on one character and `join`. */
module Text {

  /** ECMAScript WhiteSpace or LineTerminator: the characters `\s` matches
      and `trim()` strips. */
  predicate IsSpace(c: char) {
    || c == '\t' || c == '\n' || c == '\U{B}' || c == '\U{C}' || c == '\r'
    || c == ' ' || c == '\U{A0}' || c == '\U{1680}'
    || ('\U{2000}' <= c <= '\U{200A}')
    || c == '\U{2028}' || c == '\U{2029}' || c == '\U{202F}' || c == '\U{205F}'
    || c == '\U{3000}' || c == '\U{FEFF}'
  }

  /** The characters that `.` in a JavaScript regular expression does not match. */
  predicate IsLineTerminator(c: char) {
    c == '\n' || c == '\r' || c == '\U{2028}' || c == '\U{2029}'
  }

  predicate AllSpace(s: string) {
    forall i :: 0 <= i < |s| ==> IsSpace(s[i])
  }

  /** `(.*)$` can match `s` exactly when this holds. */
  predicate NoLineTerminator(s: string) {
    forall i :: 0 <= i < |s| ==> !IsLineTerminator(s[i])
  }

  /** Length of the longest all-whitespace prefix of `s`. */
  function LeadingSpace(s: string): (n: nat)
    ensures n <= |s|
    ensures AllSpace(s[..n])
    ensures n < |s| ==> !IsSpace(s[n])
  {
    if s == [] || !IsSpace(s[0]) then 0
    else
      var m := LeadingSpace(s[1..]);
      assert s[..m + 1] == [s[0]] + s[1..][..m];
      m + 1
  }

  /** Length of the longest all-whitespace suffix of `s`. */
  function TrailingSpace(s: string): (n: nat)
    ensures n <= |s|
    ensures AllSpace(s[|s| - n..])
    ensures n < |s| ==> !IsSpace(s[|s| - n - 1])
  {
    if s == [] || !IsSpace(s[|s| - 1]) then 0
    else
      var t := s[..|s| - 1];
      var m := TrailingSpace(t);
      assert s[|s| - (m + 1)..] == t[|t| - m..] + [s[|s| - 1]];
      m + 1
  }

  /** A whitespace prefix that stops at a non-space character is the longest one. */
  lemma LeadingSpaceUnique(s: string, i: nat)
    requires i <= |s| && AllSpace(s[..i]) && (i < |s| ==> !IsSpace(s[i]))
    ensures LeadingSpace(s) == i
  {
    PrefixSpaces(s, i);
    PrefixSpaces(s, LeadingSpace(s));
  }

  /** A whitespace suffix that starts after a non-space character is the longest one. */
  lemma TrailingSpaceUnique(s: string, j: nat)
    requires j <= |s| && AllSpace(s[j..]) && (0 < j ==> !IsSpace(s[j - 1]))
    ensures TrailingSpace(s) == |s| - j
  {
    SuffixSpaces(s, j);
    SuffixSpaces(s, |s| - TrailingSpace(s));
  }

  lemma PrefixSpaces(s: string, b: nat)
    requires b <= |s| && AllSpace(s[..b])
    ensures forall k :: 0 <= k < b ==> IsSpace(s[k])
  {
    assert forall k :: 0 <= k < b ==> s[..b][k] == s[k];
  }

  lemma SuffixSpaces(s: string, a: nat)
    requires a <= |s| && AllSpace(s[a..])
    ensures forall k :: a <= k < |s| ==> IsSpace(s[k])
  {
    assert forall k :: a <= k < |s| ==> s[a..][k - a] == s[k];
  }

  /** `s.trim()`: leading and trailing whitespace removed. */
  function Trim(s: string): (r: string)
    ensures |r| <= |s|
  {
    var t := s[LeadingSpace(s)..];
    t[..|t| - TrailingSpace(t)]
  }

  /** `trim()` gives the empty string exactly for all-whitespace input, and
      otherwise a string that starts and ends with a non-space character
      and sits between an all-whitespace prefix and suffix of the input. */
  lemma TrimSpec(s: string)
    ensures Trim(s) == "" <==> AllSpace(s)
    ensures Trim(s) != "" ==> !IsSpace(Trim(s)[0]) && !IsSpace(Trim(s)[|Trim(s)| - 1])
    ensures var i := LeadingSpace(s);
            i + |Trim(s)| <= |s| && s[i..i + |Trim(s)|] == Trim(s)
            && AllSpace(s[..i]) && AllSpace(s[i + |Trim(s)|..])
  {
    TrimSlice(s);
    if Trim(s) == "" {
      TrimEmptyAllSpace(s);
    } else {
      TrimEnds(s);
    }
  }

  /** Where the trimmed string sits in the input. */
  lemma TrimSlice(s: string)
    ensures var i := LeadingSpace(s);
            i + |Trim(s)| <= |s| && s[i..i + |Trim(s)|] == Trim(s)
            && AllSpace(s[..i]) && AllSpace(s[i + |Trim(s)|..])
  {
    var i := LeadingSpace(s);
    var t := s[i..];
    var n := TrailingSpace(t);
    var k := |t| - n;
    var r := Trim(s);
    assert r == t[..k];
    DropSlices(s, i, k);
    assert AllSpace(s[..i]);
    assert |r| == k && r == s[i..i + k];
    assert AllSpace(t[k..]) && t[k..] == s[i + k..];
  }

  /** Taking or dropping after a drop is one slice of the original. */
  lemma DropSlices(s: string, i: nat, k: nat)
    requires i + k <= |s|
    ensures s[i..][..k] == s[i..i + k] && s[i..][k..] == s[i + k..]
  {
  }

  /** A non-empty trimmed string starts and ends with non-space characters,
      so the input was not all whitespace. */
  lemma TrimEnds(s: string)
    requires Trim(s) != ""
    ensures !IsSpace(Trim(s)[0]) && !IsSpace(Trim(s)[|Trim(s)| - 1])
    ensures !AllSpace(s)
  {
    var i := LeadingSpace(s);
    var t := s[i..];
    var n := TrailingSpace(t);
    var r := Trim(s);
    assert r[0] == t[0] == s[i];
    assert r[|r| - 1] == t[|t| - n - 1];
  }

  lemma TrimEmptyAllSpace(s: string)
    requires Trim(s) == ""
    ensures AllSpace(s)
  {
    var i := LeadingSpace(s);
    var t := s[i..];
    var n := TrailingSpace(t);
    assert |t| == n;
    assert s == s[..i];
  }

  /** An all-whitespace string trims to the empty string. */
  lemma TrimEmptyOfAllSpace(s: string)
    requires AllSpace(s)
    ensures Trim(s) == ""
  {
    assert s[..|s|] == s;
    LeadingSpaceUnique(s, |s|);
  }

  /** Trimming is idempotent. */
  lemma TrimIdempotent(s: string)
    ensures Trim(Trim(s)) == Trim(s)
  {
    TrimSpec(s);
    var r := Trim(s);
    if r == "" {
      assert AllSpace(r);
      TrimSpec(r);
    } else {
      LeadingSpaceUnique(r, 0);
      TrailingSpaceUnique(r, |r|);
      assert r[0..] == r;
    }
  }

  /** ASCII approximation of `toLowerCase` on one character. */
  function LowerChar(c: char): char {
    if 'A' <= c <= 'Z' then (c as int + 32) as char else c
  }

  /** `s.toLowerCase()`, ASCII letters only. */
  function ToLower(s: string): (r: string)
    ensures |r| == |s|
    ensures forall i :: 0 <= i < |s| ==> r[i] == LowerChar(s[i])
  {
    seq(|s|, i requires 0 <= i < |s| => LowerChar(s[i]))
  }

  /** Lower-casing twice is lower-casing once. */
  lemma ToLowerIdempotent(s: string)
    ensures ToLower(ToLower(s)) == ToLower(s)
  {
    var r := ToLower(s);
    forall i | 0 <= i < |s| ensures ToLower(r)[i] == r[i] {
      assert 'A' <= r[i] <= 'Z' ==> false;
    }
  }

  /** `s.includes(t)`: `t` occurs in `s` at some position. */
  predicate Contains(s: string, t: string) {
    exists i :: 0 <= i <= |s| - |t| && OccursAt(s, t, i)
  }

  /** `t` occurs in `s` starting at index `i`. */
  predicate OccursAt(s: string, t: string, i: int) {
    0 <= i <= |s| - |t| && s[i..i + |t|] == t
  }

  /** `s.substring(0, n)` for `n >= 0`. */
  function Take(s: string, n: nat): (r: string)
    ensures |r| == if |s| <= n then |s| else n
    ensures r <= s
  {
    if |s| <= n then s else s[..n]
  }

  /** `s.split(sep)` for a one-character separator: the pieces between
      consecutive separators, always at least one piece. */
  function Split(s: string, sep: char): (r: seq<string>)
    ensures |r| >= 1
    ensures forall k :: 0 <= k < |r| ==> sep !in r[k]
    decreases |s|
  {
    if s == [] then [""]
    else
      var rest := Split(s[1..], sep);
      if s[0] == sep then [""] + rest
      else [[s[0]] + rest[0]] + rest[1..]
  }

  /** A string without the separator splits into itself alone. */
  lemma {:induction false} SplitWithoutSep(s: string, sep: char)
    requires sep !in s
    ensures Split(s, sep) == [s]
    decreases |s|
  {
    if s != [] {
      assert sep !in s[1..] by {
        assert forall k :: 0 <= k < |s| - 1 ==> s[1..][k] == s[k + 1];
      }
      SplitWithoutSep(s[1..], sep);
      assert [s[0]] + s[1..] == s;
    }
  }

  /** `parts.join(sep)`. */
  function Join(parts: seq<string>, sep: string): string
    decreases |parts|
  {
    if |parts| == 0 then ""
    else if |parts| == 1 then parts[0]
    else parts[0] + sep + Join(parts[1..], sep)
  }

  /** Joining the pieces of a split with the separator gives back the input. */
  lemma {:induction false} SplitJoin(s: string, sep: char)
    ensures Join(Split(s, sep), [sep]) == s
    decreases |s|
  {
    if s != [] {
      var rest := Split(s[1..], sep);
      SplitJoin(s[1..], sep);
      if s[0] == sep {
        assert Split(s, sep) == [""] + rest;
        assert ([""] + rest)[1..] == rest;
      } else {
        var r := Split(s, sep);
        assert r == [[s[0]] + rest[0]] + rest[1..];
        if |rest| == 1 {
          assert r == [[s[0]] + rest[0]];
        } else {
          assert r[1..] == rest[1..];
          assert Join(rest, [sep]) == rest[0] + [sep] + Join(rest[1..], [sep]);
        }
      }
    }
  }

  /** A split yields one more piece than the separator occurs. */
  lemma {:induction false} SplitCount(s: string, sep: char)
    ensures |Split(s, sep)| == multiset(s)[sep] + 1
    decreases |s|
  {
    if s != [] {
      SplitCount(s[1..], sep);
      assert s == [s[0]] + s[1..];
      assert multiset(s) == multiset{s[0]} + multiset(s[1..]);
    }
  }
}
