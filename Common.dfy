/** Shared vocabulary of the model: optional values, bytes, and the small
    text operations (split, join, decimal numbers, ASCII case) that the
    backend, the detection service and the dashboard all rely on. */
module Common {

  datatype Option<T> = None | Some(value: T)

  /** One octet of a byte string. */
  newtype byte = x: int | 0 <= x < 256

  // ---------------------------------------------------------------------
  // Characters

  predicate IsDigit(c: char) { '0' <= c <= '9' }

  predicate IsAsciiUpper(c: char) { 'A' <= c <= 'Z' }

  predicate IsAsciiLower(c: char) { 'a' <= c <= 'z' }

  predicate IsAscii(s: string) { forall i :: 0 <= i < |s| ==> s[i] as int < 128 }

  /** Python's str.isspace: the ASCII whitespace, the separators \x1c-\x1f,
      and the Unicode spaces and line separators. str.strip() and int() skip
      these. */
  const PyWhitespace: set<char> :=
    {'\t', '\n', '\U{0B}', '\U{0C}', '\r', '\U{1C}', '\U{1D}', '\U{1E}', '\U{1F}', ' ',
     '\U{85}', '\U{A0}', '\U{1680}', '\U{2000}', '\U{2001}', '\U{2002}', '\U{2003}', '\U{2004}',
     '\U{2005}', '\U{2006}', '\U{2007}', '\U{2008}', '\U{2009}', '\U{200A}', '\U{2028}', '\U{2029}',
     '\U{202F}', '\U{205F}', '\U{3000}'}

  /** The C isspace set, which PHP skips before a number. */
  const CWhitespace: set<char> := {' ', '\t', '\n', '\r', '\U{0B}', '\U{0C}'}

  /** What PHP's trim() removes by default. */
  const PhpTrimmed: set<char> := {' ', '\t', '\n', '\r', '\0', '\U{0B}'}

  function UpperChar(c: char): (u: char)
    ensures IsAsciiLower(c) ==> IsAsciiUpper(u) && u as int == c as int - 32
    ensures !IsAsciiLower(c) ==> u == c
  {
    if IsAsciiLower(c) then (c as int - 32) as char else c
  }

  /** `toUpperCase()` / `str.upper()` restricted to the ASCII letters. */
  function Upper(s: string): (u: string)
    ensures |u| == |s|
    ensures forall i :: 0 <= i < |s| ==> u[i] == UpperChar(s[i])
  {
    if s == [] then [] else [UpperChar(s[0])] + Upper(s[1..])
  }

  /** Replace every occurrence of the character `a` by `b`. */
  function ReplaceChar(s: string, a: char, b: char): (r: string)
    ensures |r| == |s|
    ensures forall i :: 0 <= i < |s| ==> r[i] == (if s[i] == a then b else s[i])
  {
    if s == [] then [] else [if s[0] == a then b else s[0]] + ReplaceChar(s[1..], a, b)
  }

  // ---------------------------------------------------------------------
  // Substrings

  predicate StartsWith(s: string, p: string) { |p| <= |s| && s[..|p|] == p }

  /** `p` occurs somewhere in `s` (Python's `p in s`, JavaScript's `s.includes(p)`). */
  predicate Contains(s: string, p: string) {
    StartsWith(s, p) || (s != [] && Contains(s[1..], p))
  }

  /** The first position of an element whose id is `id`: how a row is found by its key. */
  function IndexOfId<T, K(==)>(xs: seq<T>, idOf: T -> K, id: K): (i: Option<nat>)
    ensures i.Some? ==> i.value < |xs| && idOf(xs[i.value]) == id
    ensures i.Some? ==> forall k :: 0 <= k < i.value ==> idOf(xs[k]) != id
    ensures i.None? ==> forall k :: 0 <= k < |xs| ==> idOf(xs[k]) != id
  {
    if xs == [] then None
    else if idOf(xs[0]) == id then Some(0)
    else
      var r := IndexOfId(xs[1..], idOf, id);
      if r.Some? then Some(r.value + 1) else None
  }

  // ---------------------------------------------------------------------
  // Split and join on one separator character, as String.split / str.split do

  function Split(s: string, sep: char): (parts: seq<string>)
    ensures |parts| >= 1
    ensures forall k :: 0 <= k < |parts| ==> sep !in parts[k]
  {
    if s == [] then [""]
    else
      var rest := Split(s[1..], sep);
      if s[0] == sep then [""] + rest
      else [[s[0]] + rest[0]] + rest[1..]
  }

  function Join(parts: seq<string>, sep: char): string
    requires |parts| >= 1
  {
    if |parts| == 1 then parts[0] else parts[0] + [sep] + Join(parts[1..], sep)
  }

  /** Splitting and joining again on the same separator gives back the text. */
  lemma {:induction false} JoinSplit(s: string, sep: char)
    ensures Join(Split(s, sep), sep) == s
  {
    if s != [] {
      var rest := Split(s[1..], sep);
      JoinSplit(s[1..], sep);
      if s[0] == sep {
        assert Split(s, sep) == [""] + rest;
        assert Join([""] + rest, sep) == "" + [sep] + Join(rest, sep);
      } else {
        var parts := [[s[0]] + rest[0]] + rest[1..];
        assert Split(s, sep) == parts;
        if |rest| == 1 {
          assert Join(parts, sep) == [s[0]] + rest[0];
        } else {
          assert parts[1..] == rest[1..];
          assert Join(parts, sep) == [s[0]] + rest[0] + [sep] + Join(rest[1..], sep);
        }
      }
    }
  }

  /** Text without the separator splits into one part. */
  lemma {:induction false} SplitWithoutSep(s: string, sep: char)
    requires sep !in s
    ensures Split(s, sep) == [s]
  {
    if s != [] {
      SplitWithoutSep(s[1..], sep);
      assert s[0] != sep;
      assert [s[0]] + s[1..] == s;
    }
  }

  /** A leading separator starts a new, empty part. */
  lemma SplitConsSep(t: string, sep: char)
    ensures Split([sep] + t, sep) == [""] + Split(t, sep)
  {
    assert ([sep] + t)[0] == sep && ([sep] + t)[1..] == t;
  }

  /** Any other leading character joins the first part. */
  lemma SplitConsOther(c: char, t: string, sep: char)
    requires c != sep
    ensures Split([c] + t, sep) == [[c] + Split(t, sep)[0]] + Split(t, sep)[1..]
  {
    assert ([c] + t)[0] == c && ([c] + t)[1..] == t;
  }

  /** Text split at one separator splits into the parts of either side. */
  lemma {:induction false} SplitConcat(a: string, b: string, sep: char)
    ensures Split(a + [sep] + b, sep) == Split(a, sep) + Split(b, sep)
  {
    if a == [] {
      assert [] + [sep] + b == [sep] + b;
      SplitConsSep(b, sep);
    } else {
      var c, t := a[0], a[1..];
      SplitConcat(t, b, sep);
      SplitConcatStep(c, t, b, sep);
      assert a == [c] + t;
      assert a + [sep] + b == [c] + (t + [sep] + b);
    }
  }

  /** The induction step of SplitConcat: one more character in front. */
  lemma SplitConcatStep(c: char, t: string, b: string, sep: char)
    requires Split(t + [sep] + b, sep) == Split(t, sep) + Split(b, sep)
    ensures Split([c] + (t + [sep] + b), sep) == Split([c] + t, sep) + Split(b, sep)
  {
    if c != sep {
      SplitConsOtherAppend(c, t + [sep] + b, t, Split(b, sep), sep);
    } else {
      var pa, pb := Split(t, sep), Split(b, sep);
      SplitConsSep(t + [sep] + b, sep);
      SplitConsSep(t, sep);
      assert [""] + (pa + pb) == ([""] + pa) + pb;
    }
  }

  lemma SplitConsOtherAppend(c: char, x: string, t: string, more: seq<string>, sep: char)
    requires c != sep && Split(x, sep) == Split(t, sep) + more
    ensures Split([c] + x, sep) == Split([c] + t, sep) + more
  {
    SplitConsOther(c, x, sep);
    SplitConsOther(c, t, sep);
    PrependToFirst([c], Split(t, sep), more);
  }

  /** Gluing text to the first part commutes with appending more parts. */
  lemma PrependToFirst(w: string, pa: seq<string>, pb: seq<string>)
    requires |pa| >= 1
    ensures (pa + pb)[0] == pa[0] && (pa + pb)[1..] == pa[1..] + pb
    ensures [w + (pa + pb)[0]] + (pa + pb)[1..] == ([w + pa[0]] + pa[1..]) + pb
  {
    assert (pa + pb)[1..] == pa[1..] + pb;
  }

  /** `filter(Boolean)` on strings: the non-empty ones, in order. */
  function NonEmpty(parts: seq<string>): (r: seq<string>)
    ensures |r| <= |parts|
    ensures forall k :: 0 <= k < |r| ==> r[k] != ""
    ensures forall s :: s in r <==> s in parts && s != ""
  {
    if parts == [] then []
    else (if parts[0] == "" then [] else [parts[0]]) + NonEmpty(parts[1..])
  }

  /** Nothing is dropped from pieces that are all non-empty. */
  lemma {:induction false} NonEmptyKeeps(parts: seq<string>)
    requires forall k :: 0 <= k < |parts| ==> parts[k] != ""
    ensures NonEmpty(parts) == parts
  {
    if parts != [] {
      NonEmptyKeeps(parts[1..]);
    }
  }

  /** JavaScript truthiness of an optional string: present and not empty. */
  predicate Truthy(s: Option<string>)
  {
    s.Some? && s.value != ""
  }

  /** The length of text as JavaScript's `length` counts it, in UTF-16 code
      units: two for a character beyond the Basic Multilingual Plane. */
  function Utf16Length(s: string): (n: nat)
    ensures |s| <= n <= 2 * |s|
    ensures n == |s| <==> forall i :: 0 <= i < |s| ==> s[i] as int < 0x1_0000
  {
    if s == [] then 0
    else
      var init := s[..|s| - 1];
      assert forall i :: 0 <= i < |init| ==> init[i] == s[i];
      Utf16Length(init) + (if s[|s| - 1] as int < 0x1_0000 then 1 else 2)
  }

  /** The text after the last separator (the whole text when there is none),
      as `s.split(sep)[-1]` gives it. */
  function LastPart(s: string, sep: char): (r: string)
    ensures sep !in r
    ensures |r| <= |s| && r == s[|s| - |r|..]
    ensures |r| < |s| ==> s[|s| - |r| - 1] == sep
  {
    if s == [] then []
    else if s[|s| - 1] == sep then []
    else LastPart(s[..|s| - 1], sep) + [s[|s| - 1]]
  }

  /** After a separator, a part without one is the last part. */
  lemma {:induction false} LastPartAfter(prefix: string, last: string, sep: char)
    requires sep !in last
    ensures LastPart(prefix + [sep] + last, sep) == last
  {
    var s := prefix + [sep] + last;
    if last == [] {
      assert s[|s| - 1] == sep;
    } else {
      var init := last[..|last| - 1];
      assert sep !in init by { assert forall k :: 0 <= k < |init| ==> init[k] == last[k]; }
      LastPartAfter(prefix, init, sep);
      assert s[..|s| - 1] == prefix + [sep] + init;
      assert s[|s| - 1] == last[|last| - 1];
      assert init + [last[|last| - 1]] == last;
    }
  }

  // ---------------------------------------------------------------------
  // Decimal numerals

  function DigitChar(d: nat): (c: char)
    requires d < 10
    ensures IsDigit(c)
  {
    ('0' as int + d) as char
  }

  function DigitValue(c: char): nat
    requires IsDigit(c)
  {
    c as int - '0' as int
  }

  predicate AllDigits(s: string) { forall i :: 0 <= i < |s| ==> IsDigit(s[i]) }

  /** The shortest decimal numeral of `n`, as str(n) and `${n}` print it. */
  function NatToDecimal(n: nat): (s: string)
    ensures |s| >= 1 && AllDigits(s)
  {
    if n < 10 then [DigitChar(n)] else NatToDecimal(n / 10) + [DigitChar(n % 10)]
  }

  /** Decimal text of any integer, with a leading '-' for negatives. */
  function IntToDecimal(i: int): string
  {
    if i < 0 then "-" + NatToDecimal(-i) else NatToDecimal(i)
  }

  /** The value of a string of decimal digits. */
  function DigitsValue(s: string): nat
    requires AllDigits(s)
  {
    if s == [] then 0 else DigitsValue(s[..|s| - 1]) * 10 + DigitValue(s[|s| - 1])
  }

  /** Reading back a printed number gives the number. */
  lemma {:induction false} DecimalRoundTrip(n: nat)
    ensures DigitsValue(NatToDecimal(n)) == n
  {
    if n >= 10 {
      var s := NatToDecimal(n);
      DecimalRoundTrip(n / 10);
      assert s[..|s| - 1] == NatToDecimal(n / 10);
    }
  }

  /** A decimal digit as a number. */
  type Digit = d: nat | d < 10

  /** A number as the clients print it, in positional notation: a sign, the
      whole part and the digits after the point. */
  datatype Decimal = Decimal(negative: bool, whole: nat, fraction: seq<Digit>)

  function FractionText(f: seq<Digit>): (s: string)
    ensures |s| == |f| && AllDigits(s)
  {
    if f == [] then [] else [DigitChar(f[0])] + FractionText(f[1..])
  }

  /** The whole part, then "." and the fraction digits when there are any. */
  function UnsignedText(whole: nat, fraction: seq<Digit>): (s: string)
    ensures s != [] && IsDigit(s[0]) && IsDigit(s[|s| - 1])
  {
    var w := NatToDecimal(whole);
    var digits := FractionText(fraction);
    var s := w + (if fraction == [] then "" else "." + digits);
    assert s[0] == w[0];
    assert s[|s| - 1] == if fraction == [] then w[|w| - 1] else digits[|digits| - 1];
    s
  }

  /** The unsigned part of a number with fraction digits is its whole part, a
      point, and those digits. */
  lemma UnsignedTextPointed(whole: nat, fraction: seq<Digit>)
    requires fraction != []
    ensures UnsignedText(whole, fraction) == NatToDecimal(whole) + ("." + FractionText(fraction))
  {
  }

  /** The printed form: "-" for a negative number, then the unsigned part. */
  function DecimalText(d: Decimal): (s: string)
  {
    (if d.negative then "-" else "") + UnsignedText(d.whole, d.fraction)
  }

  /** The value of the digits after a decimal point. */
  function FractionDigitsValue(f: seq<Digit>): (r: real)
    ensures 0.0 <= r < 1.0
  {
    if f == [] then 0.0 else (f[0] as real + FractionDigitsValue(f[1..])) / 10.0
  }

  function DecimalValue(d: Decimal): real
  {
    var m := d.whole as real + FractionDigitsValue(d.fraction);
    if d.negative then -m else m
  }

  // ---------------------------------------------------------------------
  // Stripping, and Python's int()

  /** The first position from `i` on whose character is not in `ws`. */
  function SkipLeft(s: string, ws: set<char>, i: nat): (j: nat)
    requires i <= |s|
    ensures i <= j <= |s| && (j == |s| || s[j] !in ws)
    ensures forall k :: i <= k < j ==> s[k] in ws
    decreases |s| - i
  {
    if i < |s| && s[i] in ws then SkipLeft(s, ws, i + 1) else i
  }

  /** The end of `s[..j]` once its trailing characters from `ws` are dropped. */
  function SkipRight(s: string, ws: set<char>, j: nat): (i: nat)
    requires j <= |s|
    ensures i <= j && (i == 0 || s[i - 1] !in ws)
    ensures forall k :: i <= k < j ==> s[k] in ws
  {
    if j > 0 && s[j - 1] in ws then SkipRight(s, ws, j - 1) else j
  }

  /** `s` without its leading characters from `ws`. */
  function StripLeft(s: string, ws: set<char>): (r: string)
    ensures |r| <= |s| && r == s[|s| - |r|..]
    ensures r == [] || r[0] !in ws
    ensures forall k :: 0 <= k < |s| - |r| ==> s[k] in ws
  {
    s[SkipLeft(s, ws, 0)..]
  }

  /** `s` without its trailing characters from `ws`. */
  function StripRight(s: string, ws: set<char>): (r: string)
    ensures |r| <= |s| && r == s[..|r|]
    ensures r == [] || r[|r| - 1] !in ws
    ensures forall k :: |r| <= k < |s| ==> s[k] in ws
  {
    s[..SkipRight(s, ws, |s|)]
  }

  /** Python's str.strip() with ws = PyWhitespace, PHP's trim() with ws = PhpTrimmed. */
  function Strip(s: string, ws: set<char>): string { StripRight(StripLeft(s, ws), ws) }

  /** Text that neither starts nor ends with a character of `ws` is its own strip. */
  lemma StripUnchanged(s: string, ws: set<char>)
    requires s != [] && s[0] !in ws && s[|s| - 1] !in ws
    ensures Strip(s, ws) == s
  {
    assert StripLeft(s, ws) == s;
  }

  predicate DigitsOrUnderscores(s: string)
  {
    forall i :: 0 <= i < |s| ==> IsDigit(s[i]) || s[i] == '_'
  }

  /** Python's digit groups: ASCII digits, each underscore between two digits. */
  predicate PyDigits(s: string)
  {
    && s != [] && IsDigit(s[0]) && DigitsOrUnderscores(s)
    && forall i :: 0 <= i < |s| && s[i] == '_' ==> i + 1 < |s| && IsDigit(s[i + 1])
  }

  /** The digits of a digit-group text, underscores dropped. */
  function DropUnderscores(s: string): (d: string)
    ensures DigitsOrUnderscores(s) ==> AllDigits(d)
    ensures |d| <= |s|
  {
    if s == [] then []
    else (if s[0] == '_' then [] else [s[0]]) + DropUnderscores(s[1..])
  }

  lemma {:induction false} DropUnderscoresOfDigits(s: string)
    requires AllDigits(s)
    ensures DropUnderscores(s) == s
  {
    if s != [] {
      DropUnderscoresOfDigits(s[1..]);
    }
  }

  /** `int(text)` for base-10 text: surrounding whitespace, an optional sign,
      then ASCII digits, single underscores allowed between them. Other text
      raises ValueError (None here); the non-ASCII decimal digits int() also
      reads are outside the model. */
  function PyInt(text: string): (r: Option<int>)
  {
    var t := Strip(text, PyWhitespace);
    var signed := t != [] && (t[0] == '-' || t[0] == '+');
    var digits := if signed then t[1..] else t;
    if PyDigits(digits) then
      var v: int := DigitsValue(DropUnderscores(digits));
      Some(if signed && t[0] == '-' then -v else v)
    else None
  }

  /** Every printed natural number is read back by int(). */
  lemma PyIntOfDecimal(n: nat)
    ensures PyInt(NatToDecimal(n)) == Some(n)
  {
    var s := NatToDecimal(n);
    StripUnchanged(s, PyWhitespace);
    DropUnderscoresOfDigits(s);
    DecimalRoundTrip(n);
  }

  /** Unsigned digit groups are read as the number their digits spell. */
  lemma PyIntOfGroups(t: string)
    requires PyDigits(t)
    ensures PyInt(t) == Some(DigitsValue(DropUnderscores(t)) as int)
  {
    assert IsDigit(t[|t| - 1]);
    StripUnchanged(t, PyWhitespace);
  }

  /** int() ignores an underscore between two digit runs: int("1_000") == int("1000"). */
  lemma PyIntIgnoresUnderscore(x: string, y: string)
    requires x != [] && y != [] && AllDigits(x) && AllDigits(y)
    ensures PyInt(x + "_" + y) == PyInt(x + y)
  {
    GroupedDigits(x, y);
    PyIntOfGroups(x + "_" + y);
    PyIntOfGroups(x + y);
  }

  lemma GroupedDigits(x: string, y: string)
    requires x != [] && y != [] && AllDigits(x) && AllDigits(y)
    ensures PyDigits(x + "_" + y) && PyDigits(x + y)
    ensures DropUnderscores(x + "_" + y) == DropUnderscores(x + y)
  {
    GroupedIsPyDigits(x, y);
    PlainIsPyDigits(x + y);
    DropGrouped(x, y);
  }

  lemma DropGrouped(x: string, y: string)
    ensures DropUnderscores(x + ['_'] + y) == DropUnderscores(x + y)
  {
    var u := ['_'];
    assert DropUnderscores(u) == [] by {
      assert u[1..] == [];
    }
    DropUnderscoresAppend(u, y);
    DropUnderscoresAppend(x, u + y);
    DropUnderscoresAppend(x, y);
    assert x + u + y == x + (u + y);
  }

  lemma PlainIsPyDigits(s: string)
    requires s != [] && AllDigits(s)
    ensures PyDigits(s)
  {
  }

  lemma GroupedIsPyDigits(x: string, y: string)
    requires x != [] && y != [] && AllDigits(x) && AllDigits(y)
    ensures PyDigits(x + "_" + y)
  {
    var g := x + "_" + y;
    forall i | 0 <= i < |g| ensures IsDigit(g[i]) || (g[i] == '_' && i + 1 < |g| && IsDigit(g[i + 1])) {
      if i < |x| {
        assert g[i] == x[i];
      } else if i == |x| {
        assert g[i + 1] == y[0];
      } else {
        assert g[i] == y[i - |x| - 1];
      }
    }
  }

  lemma {:induction false} DropUnderscoresAppend(a: string, b: string)
    ensures DropUnderscores(a + b) == DropUnderscores(a) + DropUnderscores(b)
  {
    if a == [] {
      assert a + b == b;
    } else {
      assert (a + b)[0] == a[0] && (a + b)[1..] == a[1..] + b;
      DropUnderscoresAppend(a[1..], b);
    }
  }

  // ---------------------------------------------------------------------
  // Byte strings

  predicate IsByteText(s: string) { forall i :: 0 <= i < |s| ==> s[i] as int < 256 }

  /** The one-byte-per-character encoding of text in the Latin-1 range;
      on ASCII text this is what Python's str.encode() produces. */
  function Encode(s: string): (b: seq<byte>)
    requires IsByteText(s)
    ensures |b| == |s|
    ensures forall i :: 0 <= i < |s| ==> b[i] as int == s[i] as int
  {
    if s == [] then [] else [s[0] as int as byte] + Encode(s[1..])
  }
}
