/** The map key "x,y" under which a letter is stored, and its inverse.
    The key is what the letter map is indexed by; the round trip below shows
    that indexing by key is the same as indexing by cell. */
module Keys {
  import opened Grid

  predicate IsDigit(c: char) {
    '0' <= c <= '9'
  }

  function DigitChar(d: nat): (c: char)
    requires d < 10
    ensures IsDigit(c)
  {
    (48 + d) as char
  }

  function DigitValue(c: char): int {
    c as int - 48
  }

  /** Decimal spelling of a natural number, without leading zeros. */
  function NatToString(n: nat): (s: string)
    ensures |s| >= 1
    ensures forall i :: 0 <= i < |s| ==> IsDigit(s[i])
    decreases n
  {
    if n < 10 then [DigitChar(n)] else NatToString(n / 10) + [DigitChar(n % 10)]
  }

  /** Decimal spelling of an integer, with a leading '-' when negative. */
  function IntToString(i: int): (s: string)
    ensures |s| >= 1
    ensures forall k :: 0 <= k < |s| ==> s[k] != ','
  {
    if i < 0 then "-" + NatToString(-i) else NatToString(i)
  }

  /** key(x, y): the coordinates joined by a comma. */
  function Key(p: Point): (k: string)
    ensures CommaAt(k) == |IntToString(p.x)| < |k|
    ensures k[..CommaAt(k)] == IntToString(p.x) && k[CommaAt(k) + 1..] == IntToString(p.y)
  {
    var a, b := IntToString(p.x), IntToString(p.y);
    var k := a + "," + b;
    assert k[|a|] == ',';
    assert k[..|a|] == a && k[|a| + 1..] == b;
    k
  }

  function ParseNat(s: string): nat
    decreases |s|
  {
    if s == [] then 0
    else
      var d := DigitValue(s[|s| - 1]);
      ParseNat(s[..|s| - 1]) * 10 + (if 0 <= d then d else 0)
  }

  function ParseInt(s: string): int {
    if |s| > 0 && s[0] == '-' then -(ParseNat(s[1..]) as int) else ParseNat(s)
  }

  /** Position of the first comma in `s`, or |s| when there is none. */
  function CommaAt(s: string): (k: nat)
    ensures k <= |s|
    ensures forall i :: 0 <= i < k ==> s[i] != ','
    ensures k < |s| ==> s[k] == ','
  {
    if s == [] then 0 else if s[0] == ',' then 0 else 1 + CommaAt(s[1..])
  }

  function ParseKey(s: string): Point {
    var k := CommaAt(s);
    Point(ParseInt(s[..k]), ParseInt(if k < |s| then s[k + 1..] else []))
  }

  lemma {:induction false} ParseNatRoundTrip(n: nat)
    ensures ParseNat(NatToString(n)) == n
    decreases n
  {
    if n >= 10 {
      var s := NatToString(n);
      assert s[..|s| - 1] == NatToString(n / 10);
      ParseNatRoundTrip(n / 10);
    }
  }

  lemma ParseIntRoundTrip(i: int)
    ensures ParseInt(IntToString(i)) == i
  {
    if i < 0 {
      var s := IntToString(i);
      assert s[1..] == NatToString(-i);
      ParseNatRoundTrip(-i);
    } else {
      ParseNatRoundTrip(i);
    }
  }

  /** Parsing a key gives back the cell it was made from. */
  lemma KeyRoundTrip(p: Point)
    ensures ParseKey(Key(p)) == p
  {
    ParseIntRoundTrip(p.x);
    ParseIntRoundTrip(p.y);
  }

  /** Two cells share a key exactly when they are the same cell. */
  lemma KeyInjective(p: Point, q: Point)
    ensures Key(p) == Key(q) <==> p == q
  {
    if Key(p) == Key(q) {
      KeyRoundTrip(p);
      KeyRoundTrip(q);
    }
  }
}
