/** The fixed list of animals a round's word is drawn from. */
module Catalog {

  /** Names of the fifteen animals, in catalog order (the picture shown
      beside each name is not modelled). */
  const Animals: seq<string> := [
    "dog", "cat", "rat", "parrot", "fox", "bear", "panda", "zebra",
    "lion", "horse", "snake", "tiger", "monkey", "rabbit", "frog"
  ]

  predicate IsLowerWord(s: string) {
    forall i :: 0 <= i < |s| ==> 'a' <= s[i] <= 'z'
  }

  predicate IsUpperWord(s: string) {
    forall i :: 0 <= i < |s| ==> 'A' <= s[i] <= 'Z'
  }

  /** Upper case of one ASCII character; any other character is kept. */
  function UpperChar(c: char): char {
    if 'a' <= c <= 'z' then (c as int - 32) as char else c
  }

  function Upper(s: string): string {
    seq(|s|, i requires 0 <= i < |s| => UpperChar(s[i]))
  }

  /** Every catalog name is a lower-case word of three to six letters. */
  lemma CatalogNames()
    ensures |Animals| == 15
    ensures forall k :: 0 <= k < |Animals| ==> 3 <= |Animals[k]| <= 6 && IsLowerWord(Animals[k])
  {
  }

  /** The word to collect when the animal at catalog position `k` is drawn. */
  function TargetWord(k: nat): (w: string)
    requires k < |Animals|
    ensures |w| == |Animals[k]| && 3 <= |w| <= 6 && IsUpperWord(w)
    ensures forall i :: 0 <= i < |w| ==> w[i] as int == Animals[k][i] as int - 32
  {
    CatalogNames();
    Upper(Animals[k])
  }
}
