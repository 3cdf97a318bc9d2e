/**
 * Character and string helpers shared by the server code and the page script:
 * lower-casing of the Latin-1 capitals (Python's `str.lower`, JavaScript's `toLowerCase`),
 * prefixes, suffixes and substring search (Python's `in`, JavaScript's `includes`).
 */
module Text {

  /** A capital letter of Basic Latin or Latin-1 (A-Z, and À-Þ except the sign ×). */
  predicate IsUpper(c: char) {
    'A' <= c <= 'Z' || ('\U{00C0}' <= c <= '\U{00DE}' && c != '\U{00D7}')
  }

  /** Lower-cases one character: each Latin-1 capital moves 32 code points down to its
      small letter (É to é, Ç to ç, Ã to ã); every other character is left alone. */
  function LowerChar(c: char): (r: char)
    ensures IsUpper(c) ==> r as int == c as int + 32
    ensures !IsUpper(c) ==> r == c
    ensures !IsUpper(r)
    ensures ('a' <= r <= 'z') <==> ('a' <= c <= 'z' || 'A' <= c <= 'Z')
  {
    if IsUpper(c) then (c as int + 32) as char else c
  }

  /** Lower-cases every character of `s`. */
  function Lower(s: string): (r: string)
    ensures |r| == |s|
    ensures forall i :: 0 <= i < |s| ==> r[i] == LowerChar(s[i])
  {
    if s == [] then [] else [LowerChar(s[0])] + Lower(s[1..])
  }

  /** Lower-casing twice is lower-casing once. */
  lemma LowerIdempotent(s: string)
    ensures Lower(Lower(s)) == Lower(s)
  {
    assert forall i :: 0 <= i < |s| ==> LowerChar(LowerChar(s[i])) == LowerChar(s[i]);
  }

  predicate IsPrefix(p: string, s: string) {
    |p| <= |s| && s[..|p|] == p
  }

  predicate IsSuffix(t: string, s: string) {
    |t| <= |s| && s[|s| - |t|..] == t
  }

  /** `t` occurs somewhere in `s` as a contiguous piece. */
  predicate Contains(s: string, t: string)
    decreases |s|
  {
    IsPrefix(t, s) || (s != [] && Contains(s[1..], t))
  }

  /** `Contains` is substring search: some position of `s` starts a copy of `t`. */
  lemma {:induction false} ContainsAt(s: string, t: string)
    ensures Contains(s, t) <==> exists i :: 0 <= i <= |s| && IsPrefix(t, s[i..])
    decreases |s|
  {
    if s != [] {
      ContainsAt(s[1..], t);
      if Contains(s[1..], t) {
        var i :| 0 <= i <= |s[1..]| && IsPrefix(t, s[1..][i..]);
        assert s[1..][i..] == s[i + 1..];
      }
      forall i | 1 <= i <= |s| && IsPrefix(t, s[i..])
        ensures Contains(s[1..], t)
      {
        assert s[1..][i - 1..] == s[i..];
      }
    }
    assert s[0..] == s;
  }

  /** The empty string occurs in every string. */
  lemma ContainsEmpty(s: string)
    ensures Contains(s, "")
  {
  }
}
