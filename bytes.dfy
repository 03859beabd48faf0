/** Byte strings and the few `bytes` package operations the renderers and
    the front-matter splitters rely on: case-insensitive prefix tests and
    first-occurrence search. */
module Bytes {

  newtype byte = b: int | 0 <= b < 256

  /** The bytes of an ASCII literal (each character is taken modulo 256). */
  function Ascii(s: string): (r: seq<byte>)
    ensures |r| == |s|
  {
    seq(|s|, i requires 0 <= i < |s| => (s[i] as int % 256) as byte)
  }

  /** ASCII lower-casing of one byte; every other byte is left alone. */
  function Lower(b: byte): byte
  {
    if 65 <= b <= 90 then b + 32 else b
  }

  function LowerAll(s: seq<byte>): (r: seq<byte>)
    ensures |r| == |s|
  {
    seq(|s|, i requires 0 <= i < |s| => Lower(s[i]))
  }

  /** `bytes.HasPrefix`: exact prefix test. */
  predicate HasPrefix(s: seq<byte>, p: seq<byte>)
  {
    |p| <= |s| && s[..|p|] == p
  }

  /** `bytes.HasSuffix`: exact suffix test. */
  predicate HasSuffix(s: seq<byte>, p: seq<byte>)
  {
    |p| <= |s| && s[|s| - |p|..] == p
  }

  /** The renderers' `hasPrefix`: lower-case the first |p| bytes of `s` and
      compare them with the lower-cased prefix. */
  predicate HasPrefixFold(s: seq<byte>, p: seq<byte>)
  {
    |p| <= |s| && LowerAll(s[..|p|]) == LowerAll(p)
  }

  lemma LowerIdempotent(b: byte)
    ensures Lower(Lower(b)) == Lower(b)
  {
  }

  /** Lower-casing the subject first never changes a folded prefix test. */
  lemma {:induction false} HasPrefixFoldOfLower(s: seq<byte>, p: seq<byte>)
    ensures HasPrefixFold(LowerAll(s), p) == HasPrefixFold(s, p)
  {
    if |p| <= |s| {
      var a := LowerAll(LowerAll(s)[..|p|]);
      var b := LowerAll(s[..|p|]);
      forall i | 0 <= i < |p|
        ensures a[i] == b[i]
      {
        LowerIdempotent(s[i]);
      }
      assert a == b;
    }
  }

  /** An exact prefix is also a folded prefix. */
  lemma ExactPrefixIsFolded(s: seq<byte>, p: seq<byte>)
    requires HasPrefix(s, p)
    ensures HasPrefixFold(s, p)
  {
  }

  /** `pat` starts at offset `j` of `s`. */
  predicate OccursAt(s: seq<byte>, pat: seq<byte>, j: int)
  {
    0 <= j && j + |pat| <= |s| && s[j..j + |pat|] == pat
  }

  /** A mismatch on the first byte rules an occurrence out. */
  lemma NotAt(s: seq<byte>, pat: seq<byte>, j: int)
    requires 0 <= j < |s| && |pat| > 0 && s[j] != pat[0]
    ensures !OccursAt(s, pat, j)
  {
    if j + |pat| <= |s| {
      assert s[j..j + |pat|][0] == s[j];
    }
  }

  /** `bytes.Index`: the offset of the first occurrence of `pat` in `s`,
      or -1 when there is none. */
  function IndexOf(s: seq<byte>, pat: seq<byte>): (r: int)
    ensures -1 <= r
    ensures r >= 0 ==> OccursAt(s, pat, r)
    ensures r >= 0 ==> forall j :: 0 <= j < r ==> !OccursAt(s, pat, j)
    ensures r == -1 ==> forall j :: !OccursAt(s, pat, j)
    decreases |s|
  {
    if |s| < |pat| then
      -1
    else if s[..|pat|] == pat then
      0
    else
      var k := IndexOf(s[1..], pat);
      assert forall j :: 1 <= j && OccursAt(s, pat, j) ==> OccursAt(s[1..], pat, j - 1);
      if k < 0 then -1 else
        assert OccursAt(s[1..], pat, k);
        assert s[k + 1..k + 1 + |pat|] == s[1..][k..k + |pat|];
        k + 1
  }

  /** The first occurrence determines `IndexOf`. */
  lemma IndexOfIs(s: seq<byte>, pat: seq<byte>, k: int)
    requires OccursAt(s, pat, k)
    requires forall j :: 0 <= j < k ==> !OccursAt(s, pat, j)
    ensures IndexOf(s, pat) == k
  {
  }

  /** Occurrences in a suffix are occurrences in the whole, shifted. */
  lemma OccursShift(s: seq<byte>, pat: seq<byte>, d: int, j: int)
    requires 0 <= d <= |s| && 0 <= j
    ensures OccursAt(s[d..], pat, j) <==> OccursAt(s, pat, j + d)
  {
    if j + |pat| <= |s| - d {
      assert s[d..][j..j + |pat|] == s[j + d..j + d + |pat|];
    }
  }

  /** Searching from offset `d` finds the first occurrence at or after `d`. */
  lemma IndexFrom(s: seq<byte>, pat: seq<byte>, d: int)
    requires 0 <= d <= |s|
    ensures var e := IndexOf(s[d..], pat);
      (e >= 0 ==> OccursAt(s, pat, d + e) && forall j :: d <= j < d + e ==> !OccursAt(s, pat, j)) &&
      (e == -1 ==> forall j :: d <= j ==> !OccursAt(s, pat, j))
  {
    forall j | d <= j
      ensures OccursAt(s, pat, j) <==> OccursAt(s[d..], pat, j - d)
    {
      OccursShift(s, pat, d, j - d);
    }
  }

  /** The UTF-8 encoding of one character: goldmark keeps a node's text as
      the source bytes, which are the UTF-8 encoding of the string the
      model stores. */
  function Utf8Char(c: char): (r: seq<byte>)
    ensures 1 <= |r| <= 4
    ensures |r| == 1 <==> (c as int) < 0x80
  {
    var n := c as int;
    if n < 0x80 then [n as byte]
    else if n < 0x800 then [(0xC0 + n / 0x40) as byte, (0x80 + n % 0x40) as byte]
    else if n < 0x1_0000 then
      [(0xE0 + n / 0x1000) as byte, (0x80 + n / 0x40 % 0x40) as byte, (0x80 + n % 0x40) as byte]
    else
      [(0xF0 + n / 0x4_0000) as byte, (0x80 + n / 0x1000 % 0x40) as byte,
       (0x80 + n / 0x40 % 0x40) as byte, (0x80 + n % 0x40) as byte]
  }

  function Utf8(s: string): seq<byte>
    decreases |s|
  {
    if s == [] then [] else Utf8(s[..|s| - 1]) + Utf8Char(s[|s| - 1])
  }

  /** Only a character below 0x80 encodes to a byte below 0x80, so the
      encoding ends with a newline byte exactly when the text ends with a
      newline. */
  lemma Utf8EndsWithNewline(s: string)
    ensures HasSuffix(Utf8(s), [10]) <==> |s| > 0 && s[|s| - 1] == '\n'
  {
    if s != [] {
      var c := Utf8Char(s[|s| - 1]);
      assert Utf8(s)[|Utf8(s)| - 1] == c[|c| - 1];
    }
  }
}
