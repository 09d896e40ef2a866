/**
 * Java's `String.toLowerCase()`, restricted to the ASCII letters, which is
 * the alphabet of the material and enchantment keys used as shop names.
 */
module Casing {
  predicate IsUpper(c: char) {
    'A' <= c <= 'Z'
  }

  function LowerChar(c: char): (r: char)
    ensures !IsUpper(r)
    ensures !IsUpper(c) ==> r == c
    ensures IsUpper(c) ==> r as int == c as int + 32
  {
    if IsUpper(c) then (c as int + 32) as char else c
  }

  /** A string that lower-casing leaves alone. */
  predicate IsLower(s: string) {
    forall i :: 0 <= i < |s| ==> !IsUpper(s[i])
  }

  function Lower(s: string): (r: string)
    ensures |r| == |s|
    ensures IsLower(r)
    ensures IsLower(s) ==> r == s
  {
    if s == [] then [] else [LowerChar(s[0])] + Lower(s[1..])
  }

  /** Lower-casing works character by character. */
  lemma {:induction false} LowerAt(s: string, i: nat)
    requires i < |s|
    ensures Lower(s)[i] == LowerChar(s[i])
  {
    if i > 0 {
      LowerAt(s[1..], i - 1);
    }
  }

  /** Lower-casing twice is lower-casing once. */
  lemma LowerIdempotent(s: string)
    ensures Lower(Lower(s)) == Lower(s)
  {
  }

  /** Two strings that agree up to the case of each letter lower-case to the same string. */
  lemma CaseInsensitive(a: string, b: string)
    requires |a| == |b|
    requires forall i :: 0 <= i < |a| ==> LowerChar(a[i]) == LowerChar(b[i])
    ensures Lower(a) == Lower(b)
  {
    forall i | 0 <= i < |a|
      ensures Lower(a)[i] == Lower(b)[i]
    {
      LowerAt(a, i);
      LowerAt(b, i);
    }
  }

  /** A seven-letter string lower-cases letter by letter. */
  lemma LowerSeven(s: string)
    requires |s| == 7
    ensures Lower(s) == [LowerChar(s[0]), LowerChar(s[1]), LowerChar(s[2]), LowerChar(s[3]),
                         LowerChar(s[4]), LowerChar(s[5]), LowerChar(s[6])]
  {
    var r := Lower(s);
    forall i | 0 <= i < 7
      ensures r[i] == LowerChar(s[i])
    {
      LowerAt(s, i);
    }
  }

  /** The example of the shop registry: "DIAMOND" names the shop "diamond". */
  lemma DiamondLowerCase()
    ensures Lower("DIAMOND") == "diamond"
  {
    LowerSeven("DIAMOND");
  }
}
