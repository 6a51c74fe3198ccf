/** Strings as the store's search sees them: lower-casing and substring tests.
    Case folding is restricted to the 26 ASCII letters. */
module Text {

  predicate IsUpper(c: char) {
    'A' <= c <= 'Z'
  }

  /** Lower-cases one ASCII letter; every other character is left alone. */
  function LowerChar(c: char): (r: char)
    ensures !IsUpper(r)
    ensures !IsUpper(c) ==> r == c
    ensures IsUpper(c) ==> r as int == c as int + 32
  {
    if IsUpper(c) then (c as int + 32) as char else c
  }

  /** `String.prototype.toLowerCase`, restricted to ASCII letters. */
  function Lower(s: string): (r: string)
    ensures |r| == |s|
    ensures forall i :: 0 <= i < |r| ==> !IsUpper(r[i])
    ensures forall i :: 0 <= i < |s| && !IsUpper(s[i]) ==> r[i] == s[i]
    ensures forall i :: 0 <= i < |s| && IsUpper(s[i]) ==> r[i] as int == s[i] as int + 32
  {
    seq(|s|, i requires 0 <= i < |s| => LowerChar(s[i]))
  }

  /** Lower-casing twice is lower-casing once. */
  lemma LowerIdempotent(s: string)
    ensures Lower(Lower(s)) == Lower(s)
  {
    var l := Lower(s);
    assert forall i :: 0 <= i < |l| ==> Lower(l)[i] == l[i];
  }

  /** `needle` occurs in `hay` starting at offset `i`. */
  predicate OccursAt(needle: string, hay: string, i: int) {
    0 <= i <= |hay| - |needle| && hay[i..i + |needle|] == needle
  }

  /** Reference definition: `needle` occurs in `hay` at some offset. */
  ghost predicate OccursIn(needle: string, hay: string) {
    exists i :: OccursAt(needle, hay, i)
  }

  /** `String.prototype.includes`, by scanning the offsets left to right. */
  function Includes(hay: string, needle: string): (r: bool)
    ensures needle <= hay ==> r
    ensures r ==> |needle| <= |hay|
    decreases |hay|
  {
    if needle <= hay then true
    else if |hay| <= |needle| then false
    else Includes(hay[1..], needle)
  }

  /** The scan finds `needle` exactly when it occurs somewhere in `hay`. */
  lemma {:induction false} IncludesIffOccurs(hay: string, needle: string)
    ensures Includes(hay, needle) <==> OccursIn(needle, hay)
    decreases |hay|
  {
    if needle <= hay {
      assert OccursAt(needle, hay, 0);
    } else if |hay| <= |needle| {
      if |hay| == |needle| {
        assert hay != needle by { assert hay[..|needle|] == hay; }
        forall i | 0 <= i <= |hay| - |needle| ensures !OccursAt(needle, hay, i) {
          assert hay[i..i + |needle|] == hay;
        }
      }
    } else {
      var tail := hay[1..];
      IncludesIffOccurs(tail, needle);
      if OccursIn(needle, tail) {
        var i :| OccursAt(needle, tail, i);
        assert hay[i + 1..i + 1 + |needle|] == tail[i..i + |needle|];
        assert OccursAt(needle, hay, i + 1);
      }
      assert !OccursAt(needle, hay, 0);
      if OccursIn(needle, hay) {
        var i :| OccursAt(needle, hay, i);
        assert tail[i - 1..i - 1 + |needle|] == hay[i..i + |needle|];
        assert OccursAt(needle, tail, i - 1);
      }
    }
  }

  /** `c` does not appear in `s` at offset `i` or later. */
  predicate LacksFrom(s: string, c: char, i: nat)
    decreases |s| - i
  {
    i >= |s| || (s[i] != c && LacksFrom(s, c, i + 1))
  }

  /** `c` does not appear in `s`. */
  predicate Lacks(s: string, c: char) {
    LacksFrom(s, c, 0)
  }

  /** The scan from offset `i` agrees with non-membership in the suffix. */
  lemma {:induction false} LacksFromIsNotIn(s: string, c: char, i: nat)
    ensures LacksFrom(s, c, i) <==> forall j :: i <= j < |s| ==> s[j] != c
    decreases |s| - i
  {
    if i < |s| {
      LacksFromIsNotIn(s, c, i + 1);
    }
  }

  /** `Lacks` is non-membership. */
  lemma LacksIsNotIn(s: string, c: char)
    ensures Lacks(s, c) <==> c !in s
  {
    LacksFromIsNotIn(s, c, 0);
  }

  /** A string lacking both cases of a letter lacks it once lower-cased. */
  lemma LowerLacksLetter(s: string, c: char)
    requires 'a' <= c <= 'z'
    requires Lacks(s, c) && Lacks(s, (c as int - 32) as char)
    ensures Lacks(Lower(s), c)
  {
    LacksIsNotIn(s, c);
    LacksIsNotIn(s, (c as int - 32) as char);
    LacksIsNotIn(Lower(s), c);
    forall j | 0 <= j < |s| ensures Lower(s)[j] != c {
      assert s[j] != c && s[j] != (c as int - 32) as char;
    }
  }

  /** A needle holding a character the haystack lacks does not occur in it. */
  lemma MissingCharExcludes(hay: string, needle: string, k: int)
    requires 0 <= k < |needle|
    requires Lacks(hay, needle[k])
    ensures !Includes(hay, needle)
  {
    IncludesIffOccurs(hay, needle);
    LacksIsNotIn(hay, needle[k]);
    forall i | 0 <= i <= |hay| - |needle| ensures !OccursAt(needle, hay, i) {
      assert hay[i..i + |needle|][k] == hay[i + k];
    }
  }

  /** Case-insensitive containment, as the store's search uses it. */
  predicate ContainsIgnoringCase(hay: string, needle: string) {
    Includes(Lower(hay), Lower(needle))
  }

  /** Case-insensitive containment ignores the case of the search text. */
  lemma ContainsIgnoresNeedleCase(hay: string, needle: string)
    ensures ContainsIgnoringCase(hay, needle) == ContainsIgnoringCase(hay, Lower(needle))
  {
    LowerIdempotent(needle);
  }
}
