/**
 The two JavaScript string operations the club filter relies on:
 `String.prototype.toLowerCase`, modelled on the ASCII range only, and
 `String.prototype.includes`, modelled as a left-to-right scan and proved
 against an offset-based definition of "is a substring of".
 */
module JsString {

  /** True for the ASCII capitals 'A'..'Z'. */
  predicate IsUpper(c: char) {
    'A' <= c <= 'Z'
  }

  /**
   Lower-cases one character: each ASCII capital becomes the small letter at the
   same place in the alphabet, everything else is kept.
   */
  function LowerChar(c: char): (r: char)
    ensures !IsUpper(r)
    ensures 'a' <= r <= 'z' <==> IsUpper(c) || 'a' <= c <= 'z'
    ensures IsUpper(c) ==> r as int - 'a' as int == c as int - 'A' as int
    ensures IsUpper(c) || r == c
  {
    if IsUpper(c) then (c as int - 'A' as int + 'a' as int) as char else c
  }

  /** Reference definition: `a` and `b` are the same character, or one is the ASCII capital of the other. */
  predicate SameIgnoringCase(a: char, b: char) {
    || a == b
    || ('A' <= a <= 'Z' && b as int == a as int + 32)
    || ('A' <= b <= 'Z' && a as int == b as int + 32)
  }

  /** Reference definition: `s` and `t` agree character by character up to ASCII case. */
  predicate EqualIgnoringCase(s: string, t: string) {
    |s| == |t| && forall i :: 0 <= i < |s| ==> SameIgnoringCase(s[i], t[i])
  }

  /**
   `s.toLowerCase()` on the ASCII range: a character-by-character map that keeps
   the length and leaves no ASCII capital behind.
   */
  function Lower(s: string): (r: string)
    ensures |r| == |s|
    ensures forall i :: 0 <= i < |s| ==> r[i] == LowerChar(s[i])
    ensures forall i :: 0 <= i < |r| ==> !IsUpper(r[i])
  {
    seq(|s|, i requires 0 <= i < |s| => LowerChar(s[i]))
  }

  /** Reference definition: `needle` occurs in `hay` starting at offset `i`. */
  ghost predicate OccursAt(needle: string, hay: string, i: int) {
    0 <= i && i + |needle| <= |hay| && hay[i..i + |needle|] == needle
  }

  /** Reference definition: `needle` occurs somewhere in `hay`. */
  ghost predicate IsSubstring(needle: string, hay: string) {
    exists i :: OccursAt(needle, hay, i)
  }

  /** An occurrence in the tail of `hay` is an occurrence in `hay`, one offset further on. */
  lemma OccursInTail(needle: string, hay: string, i: int)
    requires |hay| > 0 && 0 <= i
    ensures OccursAt(needle, hay[1..], i) <==> OccursAt(needle, hay, i + 1)
  {
    if i + |needle| <= |hay[1..]| {
      assert hay[1..][i..i + |needle|] == hay[i + 1..i + 1 + |needle|];
    }
  }

  /** Being a prefix is the same as occurring at offset 0. */
  lemma PrefixOccursAtZero(needle: string, hay: string)
    ensures needle <= hay <==> OccursAt(needle, hay, 0)
  {
    if OccursAt(needle, hay, 0) {
      assert hay[..|needle|] == needle;
    }
  }

  /**
   `hay.includes(needle)`: try offset 0 (is `needle` a prefix?), then the rest of
   `hay`. The empty needle is included in every string, as in JavaScript.
   */
  function Includes(hay: string, needle: string): (r: bool)
    ensures r <==> IsSubstring(needle, hay)
    decreases |hay|
  {
    PrefixOccursAtZero(needle, hay);
    if needle <= hay then
      true
    else if |hay| == 0 then
      assert forall i :: !OccursAt(needle, hay, i);
      false
    else
      var rest := Includes(hay[1..], needle);
      assert rest <==> IsSubstring(needle, hay) by {
        if rest {
          var i :| OccursAt(needle, hay[1..], i);
          OccursInTail(needle, hay, i);
        }
        if IsSubstring(needle, hay) {
          var j :| OccursAt(needle, hay, j);
          OccursInTail(needle, hay, j - 1);
        }
      }
      rest
  }

  /** Lower-casing is idempotent: a lower-cased query lower-cased again is unchanged. */
  lemma LowerIdempotent(s: string)
    ensures Lower(Lower(s)) == Lower(s)
  {
  }

  /** Two characters lower-case alike exactly when they agree up to ASCII case. */
  lemma LowerCharAgrees(a: char, b: char)
    ensures LowerChar(a) == LowerChar(b) <==> SameIgnoringCase(a, b)
  {
  }

  /**
   Two strings lower-case to the same string exactly when they agree up to ASCII
   case: comparing lower-cased strings is case-insensitive comparison.
   */
  lemma LowerAgrees(s: string, t: string)
    ensures Lower(s) == Lower(t) <==> EqualIgnoringCase(s, t)
  {
  }

  /** Lower-casing commutes with taking a slice. */
  lemma LowerSlice(s: string, i: int, j: int)
    requires 0 <= i <= j <= |s|
    ensures Lower(s)[i..j] == Lower(s[i..j])
  {
  }

  /**
   Case-insensitive search is at least as permissive as exact search: whenever
   `needle` occurs in `hay`, the lower-cased needle occurs in the lower-cased hay.
   */
  lemma SubstringSurvivesLowering(needle: string, hay: string)
    requires IsSubstring(needle, hay)
    ensures IsSubstring(Lower(needle), Lower(hay))
  {
    var i :| OccursAt(needle, hay, i);
    LowerSlice(hay, i, i + |needle|);
    assert OccursAt(Lower(needle), Lower(hay), i);
  }
}
