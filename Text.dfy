/** The two string operations the classifier relies on: substring search
    (`String.prototype.includes`) and lower-casing (`toLowerCase`). */
module Text {

  /** `needle` occurs in `s` starting at position `i`. */
  predicate OccursAt(needle: string, s: string, i: int)
  {
    0 <= i && i + |needle| <= |s| && s[i..i + |needle|] == needle
  }

  /** Reference definition of "s contains needle": some position holds it. */
  ghost predicate HasSubstring(s: string, needle: string)
  {
    exists i :: OccursAt(needle, s, i)
  }

  /** `s.includes(needle)`, computed as a left-to-right scan. */
  function Includes(s: string, needle: string): bool
    decreases |s|
  {
    if needle <= s then true
    else if |s| == 0 then false
    else Includes(s[1..], needle)
  }

  /** An occurrence at position 0 is a prefix. */
  lemma OccursAtStart(needle: string, s: string)
    ensures OccursAt(needle, s, 0) <==> needle <= s
  {
  }

  /** Dropping the first character shifts every occurrence left by one. */
  lemma OccursShift(needle: string, s: string, j: int)
    requires |s| > 0 && 0 <= j
    ensures OccursAt(needle, s[1..], j) <==> OccursAt(needle, s, j + 1)
  {
    if 0 <= j && j + |needle| <= |s| - 1 {
      assert s[1..][j..j + |needle|] == s[j + 1..j + 1 + |needle|];
    }
  }

  /** The scan agrees with the reference definition, in both directions. */
  lemma {:induction false} IncludesIff(s: string, needle: string)
    ensures Includes(s, needle) <==> HasSubstring(s, needle)
    decreases |s|
  {
    OccursAtStart(needle, s);
    if needle <= s {
      assert OccursAt(needle, s, 0);
    } else if |s| > 0 {
      IncludesIff(s[1..], needle);
      if HasSubstring(s, needle) {
        var i :| OccursAt(needle, s, i);
        OccursShift(needle, s, i - 1);
      }
      if HasSubstring(s[1..], needle) {
        var j :| OccursAt(needle, s[1..], j);
        OccursShift(needle, s, j);
      }
    }
  }

  /** An occurrence at a known position makes `Includes` true. */
  lemma IncludesAt(s: string, needle: string, i: int)
    requires OccursAt(needle, s, i)
    ensures Includes(s, needle)
  {
    IncludesIff(s, needle);
  }

  /** ASCII `toLowerCase` of one character. */
  function LowerChar(c: char): (r: char)
    ensures 'A' <= c <= 'Z' ==> 'a' <= r <= 'z' && r as int - c as int == 32
    ensures !('A' <= c <= 'Z') ==> r == c
  {
    if 'A' <= c <= 'Z' then (c as int + 32) as char else c
  }

  /** `s.toLowerCase()` for ASCII letters; every other character is kept. */
  function ToLower(s: string): (r: string)
    ensures |r| == |s|
    ensures forall i :: 0 <= i < |s| ==> r[i] == LowerChar(s[i])
  {
    seq(|s|, i requires 0 <= i < |s| => LowerChar(s[i]))
  }

  /** Lower-casing leaves no upper-case ASCII letter and is idempotent. */
  lemma ToLowerIdempotent(s: string)
    ensures forall i :: 0 <= i < |s| ==> !('A' <= ToLower(s)[i] <= 'Z')
    ensures ToLower(ToLower(s)) == ToLower(s)
  {
  }

  /** Lower-casing commutes with taking a slice. */
  lemma ToLowerSlice(s: string, i: int, j: int)
    requires 0 <= i <= j <= |s|
    ensures ToLower(s)[i..j] == ToLower(s[i..j])
  {
  }

  /** A case-insensitive match, anywhere in `s`, of a word whose lower-case
      form is `lowered` makes the lower-cased `s` include `lowered`. */
  lemma {:induction false} IncludesIgnoringCase(s: string, word: string, lowered: string, i: int)
    requires OccursAt(word, s, i)
    requires ToLower(word) == lowered
    ensures Includes(ToLower(s), lowered)
  {
    ToLowerSlice(s, i, i + |word|);
    assert OccursAt(lowered, ToLower(s), i);
    IncludesAt(ToLower(s), lowered, i);
  }
}
