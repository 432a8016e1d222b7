/** Framing of the detection service's live stream
    (yolo-service/modules/sse_encoder.py): each JPEG image becomes one part of
    a multipart/x-mixed-replace body, delimited by "--" and the boundary as in
    section 5.1.1 of RFC 2046. The JPEG encoder itself is an input here. */
module Multipart {
  import opened Common

  const CR: byte := 13
  const LF: byte := 10
  const CRLF: seq<byte> := [CR, LF]
  const Dashes: seq<byte> := [45, 45]

  /** The ASCII bytes of "Content-Type: image/jpeg" and its CRLF. */
  const ContentTypeLine: seq<byte> :=
    [67, 111, 110, 116, 101, 110, 116, 45, 84, 121, 112, 101, 58, 32, 105, 109, 97, 103, 101, 47, 106, 112, 101, 103, 13, 10]

  /** The ASCII bytes of "Content-Length: ". */
  const ContentLengthName: seq<byte> :=
    [67, 111, 110, 116, 101, 110, 116, 45, 76, 101, 110, 103, 116, 104, 58, 32]

  /** The bytes between the boundary and the Content-Length value. */
  function HeaderMiddle(): (m: seq<byte>)
    ensures |m| == 2 + 26 + 16 && m[..2] == CRLF
  {
    CRLF + ContentTypeLine + ContentLengthName
  }

  /** The empty line that ends the headers, with the line end before it. */
  const BlankLine: seq<byte> := [CR, LF, CR, LF]

  predicate IsDigitByte(b: byte) { 48 <= b <= 57 }

  /** The decimal digits of a length, as ASCII bytes. */
  function LengthDigits(n: nat): (d: seq<byte>)
    ensures |d| >= 1 && forall i :: 0 <= i < |d| ==> IsDigitByte(d[i])
  {
    Encode(NatToDecimal(n))
  }

  /** Everything before the payload: the delimiter line, the Content-Type line
      and the Content-Length line followed by the empty line. */
  function FrameHeader(boundary: seq<byte>, length: nat): seq<byte>
  {
    Dashes + boundary + HeaderMiddle() + LengthDigits(length) + BlankLine
  }

  /** `encode_frame`: None when the JPEG encoding failed; otherwise the headers,
      the payload verbatim and a closing CRLF. */
  function EncodeFrame(boundary: seq<byte>, jpeg: Option<seq<byte>>): (r: Option<seq<byte>>)
    ensures r.None? <==> jpeg.None?
    ensures r.Some? ==> |r.value| == |FrameHeader(boundary, |jpeg.value|)| + |jpeg.value| + 2
    ensures r.Some? ==> r.value[..2 + |boundary| + 2] == Dashes + boundary + CRLF
    ensures r.Some? ==> r.value[|r.value| - 2..] == CRLF
  {
    match jpeg
    case None => None
    case Some(payload) =>
      FrameEnds(boundary, payload);
      Some(FrameHeader(boundary, |payload|) + payload + CRLF)
  }

  /** A part opens with the delimiter line and closes with CRLF. */
  lemma FrameEnds(boundary: seq<byte>, payload: seq<byte>)
    ensures var frame := FrameHeader(boundary, |payload|) + payload + CRLF;
      && frame[..2 + |boundary| + 2] == Dashes + boundary + CRLF
      && frame[|frame| - 2..] == CRLF
  {
    var m := HeaderMiddle();
    var d := LengthDigits(|payload|);
    assert m == CRLF + m[2..];
    Regroup(Dashes + boundary, CRLF, m[2..], d, BlankLine, payload);
    SplitAt(Dashes + boundary + CRLF, m[2..] + d + BlankLine + payload + CRLF);
    SplitAt(FrameHeader(boundary, |payload|) + payload, CRLF);
  }

  lemma Regroup(x: seq<byte>, y: seq<byte>, z: seq<byte>, d: seq<byte>, b: seq<byte>, p: seq<byte>)
    ensures x + (y + z) + d + b + p + CRLF == (x + y) + (z + d + b + p + CRLF)
  {
  }

  // ---------------------------------------------------------------------
  // Reading a part back

  /** The position of the first `x` in `s`, or |s| when there is none. */
  function FirstIndex(s: seq<byte>, x: byte): (k: nat)
    ensures k <= |s| && x !in s[..k]
    ensures k < |s| ==> s[k] == x
  {
    if s == [] then 0
    else if s[0] == x then 0
    else
      var k := FirstIndex(s[1..], x) + 1;
      assert s[..k] == [s[0]] + s[1..][..k - 1];
      k
  }

  lemma {:induction false} FirstIndexAfter(a: seq<byte>, x: byte, b: seq<byte>)
    requires x !in a
    ensures FirstIndex(a + [x] + b, x) == |a|
  {
    if a != [] {
      FirstIndexAfter(a[1..], x, b);
      assert (a + [x] + b)[1..] == a[1..] + [x] + b;
    }
  }

  /** The digit bytes at the start of `s`. */
  function LeadingDigitBytes(s: seq<byte>): (d: seq<byte>)
    ensures |d| <= |s| && d == s[..|d|]
    ensures forall i :: 0 <= i < |d| ==> IsDigitByte(d[i])
  {
    if s != [] && IsDigitByte(s[0]) then [s[0]] + LeadingDigitBytes(s[1..]) else []
  }

  lemma {:induction false} LeadingDigitBytesStop(d: seq<byte>, t: seq<byte>)
    requires forall i :: 0 <= i < |d| ==> IsDigitByte(d[i])
    requires t != [] && !IsDigitByte(t[0])
    ensures LeadingDigitBytes(d + t) == d
  {
    if d != [] {
      LeadingDigitBytesStop(d[1..], t);
      assert (d + t)[1..] == d[1..] + t;
    }
  }

  /** The value of a run of ASCII digits. */
  function BytesValue(d: seq<byte>): nat
    requires forall i :: 0 <= i < |d| ==> IsDigitByte(d[i])
  {
    if d == [] then 0
    else
      var c := d[|d| - 1];
      assert IsDigitByte(c);
      BytesValue(d[..|d| - 1]) * 10 + (c as int - 48)
  }

  lemma {:induction false} BytesValueOfDigits(s: string)
    requires AllDigits(s)
    ensures BytesValue(Encode(s)) == DigitsValue(s)
  {
    if s != [] {
      var init := s[..|s| - 1];
      BytesValueOfDigits(init);
      assert Encode(s)[..|s| - 1] == Encode(init);
    }
  }

  /** Parse what follows the boundary: the fixed headers, the declared length,
      and exactly that many payload bytes before the final CRLF. */
  function ParseHeaders(after: seq<byte>): Option<seq<byte>>
  {
    var middle := HeaderMiddle();
    if |after| < |middle| || after[..|middle|] != middle then None
    else ParseLength(after[|middle|..])
  }

  /** The declared length, the blank line, and the payload with its CRLF. */
  function ParseLength(tail: seq<byte>): Option<seq<byte>>
  {
    var digits := LeadingDigitBytes(tail);
    var afterDigits := tail[|digits|..];
    if digits == [] || |afterDigits| < 4 || afterDigits[..4] != BlankLine then None
    else ParseBody(afterDigits[4..], BytesValue(digits))
  }

  /** Exactly n payload bytes, then CRLF. */
  function ParseBody(body: seq<byte>, n: nat): Option<seq<byte>>
  {
    if |body| != n + 2 || body[n..] != CRLF then None
    else Some(body[..n])
  }

  /** Parse one part: "--", the boundary up to the first CR, then the headers
      and the payload. */
  function ParseFrame(frame: seq<byte>): (r: Option<(seq<byte>, seq<byte>)>)
    ensures r.Some? ==> CR !in r.value.0
  {
    if |frame| < 2 || frame[..2] != Dashes then None
    else
      var rest := frame[2..];
      var k := FirstIndex(rest, CR);
      match ParseHeaders(rest[k..])
      case None => None
      case Some(payload) => Some((rest[..k], payload))
  }

  lemma HeadersRoundTrip(payload: seq<byte>)
    ensures ParseHeaders(HeaderMiddle() + LengthDigits(|payload|) + BlankLine + payload + CRLF) == Some(payload)
  {
    var digits := LengthDigits(|payload|);
    BytesValueOfDigits(NatToDecimal(|payload|));
    DecimalRoundTrip(|payload|);
    assert BytesValue(digits) == |payload|;
    ParseHeadersAccepts(digits, payload);
  }

  /** Headers with any non-empty run of digits whose value is the payload's
      length are read back to that payload. */
  lemma ParseHeadersAccepts(digits: seq<byte>, payload: seq<byte>)
    requires digits != [] && forall i :: 0 <= i < |digits| ==> IsDigitByte(digits[i])
    requires BytesValue(digits) == |payload|
    ensures ParseHeaders(HeaderMiddle() + digits + BlankLine + payload + CRLF) == Some(payload)
  {
    var middle := HeaderMiddle();
    var tail := digits + (BlankLine + (payload + CRLF));
    AppendAssoc(middle, digits, BlankLine, payload, CRLF);
    SplitAt(middle, tail);
    ParseLengthAccepts(digits, payload);
  }

  lemma ParseLengthAccepts(digits: seq<byte>, payload: seq<byte>)
    requires digits != [] && forall i :: 0 <= i < |digits| ==> IsDigitByte(digits[i])
    requires BytesValue(digits) == |payload|
    ensures ParseLength(digits + (BlankLine + (payload + CRLF))) == Some(payload)
  {
    var body := payload + CRLF;
    var rest := BlankLine + body;
    assert rest[0] == CR;
    LeadingDigitBytesStop(digits, rest);
    SplitAt(digits, rest);
    SplitAt(BlankLine, body);
    SplitAt(payload, CRLF);
  }

  lemma AppendAssoc(a: seq<byte>, b: seq<byte>, c: seq<byte>, d: seq<byte>, e: seq<byte>)
    ensures a + b + c + d + e == a + (b + (c + (d + e)))
  {
  }

  lemma SplitAt(a: seq<byte>, b: seq<byte>)
    ensures (a + b)[..|a|] == a && (a + b)[|a|..] == b
  {
  }

  /** The bytes of an encoded part after the boundary. */
  lemma EncodedPartShape(boundary: seq<byte>, payload: seq<byte>)
    ensures EncodeFrame(boundary, Some(payload)).value
         == Dashes + boundary + (HeaderMiddle() + LengthDigits(|payload|) + BlankLine + payload + CRLF)
  {
  }

  /** The boundary ends at the first CR, so a CR-free boundary is read back whole. */
  lemma ParseAtBoundary(boundary: seq<byte>, after: seq<byte>)
    requires CR !in boundary && after != [] && after[0] == CR
    ensures ParseFrame(Dashes + boundary + after) ==
      match ParseHeaders(after)
      case None => None
      case Some(payload) => Some((boundary, payload))
  {
    var frame := Dashes + boundary + after;
    assert frame[..2] == Dashes;
    var rest := frame[2..];
    assert rest == boundary + [CR] + after[1..];
    FirstIndexAfter(boundary, CR, after[1..]);
    assert rest[..|boundary|] == boundary;
    assert rest[|boundary|..] == after;
  }

  /** Parsing an encoded part gives back its boundary and payload exactly,
      for a boundary without CR. */
  lemma FrameRoundTrip(boundary: seq<byte>, payload: seq<byte>)
    requires CR !in boundary
    ensures ParseFrame(EncodeFrame(boundary, Some(payload)).value) == Some((boundary, payload))
  {
    var after := HeaderMiddle() + LengthDigits(|payload|) + BlankLine + payload + CRLF;
    EncodedPartShape(boundary, payload);
    ParseAtBoundary(boundary, after);
    HeadersRoundTrip(payload);
  }
}
