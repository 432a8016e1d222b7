/** Field names of multipart uploads in PHP's bracket notation: the value of
    key `k` of element `i` of list `l` travels as the field `l[i][k]`, which
    the backend's request parser reads back as `l[i][k]`. */
module FormEncoding {
  import opened Common

  function BracketKey(list: string, index: nat, field: string): string
  {
    list + "[" + NatToDecimal(index) + "][" + field + "]"
  }

  /** The position of the first ']' in a text, or its length when there is none. */
  function FirstClose(s: string): (k: nat)
    ensures k <= |s|
  {
    if s == [] || s[0] == ']' then 0 else 1 + FirstClose(s[1..])
  }

  /** In a numeral followed by ']', the first ']' is the one after the numeral. */
  lemma {:induction false} FirstCloseAfterNumeral(d: string, r: string)
    requires AllDigits(d)
    ensures FirstClose(d + "]" + r) == |d|
  {
    if d != [] {
      FirstCloseAfterNumeral(d[1..], r);
      assert (d + "]" + r)[1..] == d[1..] + "]" + r;
    }
  }

  /** Two numerals each followed by ']' and the same text coincide only when
      the numerals do, since a digit is never ']'. */
  lemma NumeralPrefix(d1: string, d2: string, r1: string, r2: string)
    requires AllDigits(d1) && AllDigits(d2)
    requires d1 + "]" + r1 == d2 + "]" + r2
    ensures d1 == d2 && r1 == r2
  {
    var s1 := d1 + "]" + r1;
    var s2 := d2 + "]" + r2;
    FirstCloseAfterNumeral(d1, r1);
    FirstCloseAfterNumeral(d2, r2);
    assert d1 == s1[..|d1|] == s2[..|d2|] == d2;
    assert r1 == s1[|d1| + 1..] == s2[|d2| + 1..] == r2;
  }

  /** Distinct (index, field) pairs of the same list never share a field name. */
  lemma BracketKeyInjective(list: string, i1: nat, f1: string, i2: nat, f2: string)
    requires BracketKey(list, i1, f1) == BracketKey(list, i2, f2)
    ensures i1 == i2 && f1 == f2
  {
    var d1, d2 := NatToDecimal(i1), NatToDecimal(i2);
    var k1, k2 := BracketKey(list, i1, f1), BracketKey(list, i2, f2);
    var p := list + "[";
    assert k1 == p + (d1 + "]" + ("[" + f1 + "]"));
    assert k2 == p + (d2 + "]" + ("[" + f2 + "]"));
    assert k1[|p|..] == d1 + "]" + ("[" + f1 + "]");
    assert k2[|p|..] == d2 + "]" + ("[" + f2 + "]");
    NumeralPrefix(d1, d2, "[" + f1 + "]", "[" + f2 + "]");
    DecimalRoundTrip(i1);
    DecimalRoundTrip(i2);
    var t1, t2 := "[" + f1 + "]", "[" + f2 + "]";
    assert f1 == t1[1..|t1| - 1];
    assert f2 == t2[1..|t2| - 1];
  }

  /** A bracket field name never equals a plain field name without '['. */
  lemma BracketKeyNotPlain(list: string, index: nat, field: string, plain: string)
    requires '[' !in plain
    ensures BracketKey(list, index, field) != plain
  {
    var k := BracketKey(list, index, field);
    assert k[|list|] == '[';
  }
}
