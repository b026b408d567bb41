/**
 * Base64 as section 4 of RFC 4648 defines it: the encoder, and a decoder for well-formed
 * (padded, canonical-alphabet) text. This is the reference a credential decoder is held to.
 */
module Base64 {
  import opened Wrappers

  predicate IsByte(b: int)
  {
    0 <= b < 256
  }

  /** The character of a 6-bit value in the base64 alphabet (RFC 4648 section 4, table 1). */
  function SextetChar(v: int): (c: char)
    requires 0 <= v < 64
    ensures c != '=' && c != ' ' && c != ':'
  {
    if v < 26 then (65 + v) as char
    else if v < 52 then (97 + v - 26) as char
    else if v < 62 then (48 + v - 52) as char
    else if v == 62 then '+'
    else '/'
  }

  /** The 6-bit value of an alphabet character; None for any other character, including `=`. */
  function SextetValue(c: char): (v: Option<int>)
    ensures v.Some? ==> 0 <= v.value < 64 && SextetChar(v.value) == c
  {
    if 'A' <= c <= 'Z' then Some(c as int - 65)
    else if 'a' <= c <= 'z' then Some(c as int - 97 + 26)
    else if '0' <= c <= '9' then Some(c as int - 48 + 52)
    else if c == '+' then Some(62)
    else if c == '/' then Some(63)
    else None
  }

  lemma SextetRoundTrip(v: int)
    requires 0 <= v < 64
    ensures SextetValue(SextetChar(v)) == Some(v)
  {
  }

  /** The four 6-bit values of a 24-bit group `b0 b1 b2`. */
  function Sextet0(b0: int): (v: int)
    requires IsByte(b0)
    ensures 0 <= v < 64
  {
    b0 / 4
  }

  function Sextet1(b0: int, b1: int): (v: int)
    requires IsByte(b0) && IsByte(b1)
    ensures 0 <= v < 64
  {
    16 * (b0 % 4) + b1 / 16
  }

  function Sextet2(b1: int, b2: int): (v: int)
    requires IsByte(b1) && IsByte(b2)
    ensures 0 <= v < 64
  {
    4 * (b1 % 16) + b2 / 64
  }

  function Sextet3(b2: int): (v: int)
    requires IsByte(b2)
    ensures 0 <= v < 64
  {
    b2 % 64
  }

  lemma DivMod16(q: int, r: int)
    requires 0 <= r < 16
    ensures (16 * q + r) / 16 == q && (16 * q + r) % 16 == r
  {
  }

  lemma DivMod4(q: int, r: int)
    requires 0 <= r < 4
    ensures (4 * q + r) / 4 == q && (4 * q + r) % 4 == r
  {
  }

  /** The bits of each byte can be read back from the sextets that carry them. */
  lemma SextetsCarryBytes(b0: int, b1: int, b2: int)
    requires IsByte(b0) && IsByte(b1) && IsByte(b2)
    ensures 4 * Sextet0(b0) + Sextet1(b0, b1) / 16 == b0
    ensures 16 * (Sextet1(b0, b1) % 16) + Sextet2(b1, b2) / 4 == b1
    ensures 64 * (Sextet2(b1, b2) % 4) + Sextet3(b2) == b2
    ensures Sextet1(b0, 0) % 16 == 0 && Sextet2(b1, 0) % 4 == 0
  {
    DivMod16(b0 % 4, b1 / 16);
    DivMod4(b1 % 16, b2 / 64);
    DivMod16(b0 % 4, 0);
    DivMod4(b1 % 16, 0);
  }

  /** The first quantum of three bytes or more. */
  function FirstQuantum(b: seq<int>): (q: string)
    requires |b| >= 3 && IsByte(b[0]) && IsByte(b[1]) && IsByte(b[2])
    ensures |q| == 4
  {
    [SextetChar(Sextet0(b[0])), SextetChar(Sextet1(b[0], b[1])),
     SextetChar(Sextet2(b[1], b[2])), SextetChar(Sextet3(b[2]))]
  }

  /** Three bytes as four characters; one or two bytes at the end are padded with `=`. */
  function Encode(b: seq<int>): (s: string)
    requires forall i :: 0 <= i < |b| ==> IsByte(b[i])
    ensures |s| == 4 * ((|b| + 2) / 3)
  {
    if |b| == 0 then ""
    else if |b| == 1 then
      [SextetChar(Sextet0(b[0])), SextetChar(Sextet1(b[0], 0)), '=', '=']
    else if |b| == 2 then
      [SextetChar(Sextet0(b[0])), SextetChar(Sextet1(b[0], b[1])), SextetChar(Sextet2(b[1], 0)), '=']
    else FirstQuantum(b) + Encode(b[3..])
  }

  /** Encoded text never contains a space or a colon, the separators of the Basic scheme. */
  lemma {:induction false} EncodeAlphabet(b: seq<int>)
    requires forall i :: 0 <= i < |b| ==> IsByte(b[i])
    ensures ' ' !in Encode(b) && ':' !in Encode(b)
  {
    if |b| >= 3 {
      EncodeAlphabet(b[3..]);
    }
  }

  /** Four characters of a quantum back to the bytes they carry; None unless well formed. */
  function DecodeQuantum(q: string, last: bool): (r: Option<seq<int>>)
    requires |q| == 4
  {
    var v0, v1, v2, v3 := SextetValue(q[0]), SextetValue(q[1]), SextetValue(q[2]), SextetValue(q[3]);
    if v0.None? || v1.None? then None
    else if q[2] == '=' && q[3] == '=' && last && v1.value % 16 == 0 then
      Some([4 * v0.value + v1.value / 16])
    else if v2.None? then None
    else if q[3] == '=' && last && v2.value % 4 == 0 then
      Some([4 * v0.value + v1.value / 16, 16 * (v1.value % 16) + v2.value / 4])
    else if v3.None? then None
    else
      Some([4 * v0.value + v1.value / 16, 16 * (v1.value % 16) + v2.value / 4, 64 * (v2.value % 4) + v3.value])
  }

  /** Well-formed base64 back to bytes; None for text that is not a sequence of padded quanta. */
  function Decode(s: string): (r: Option<seq<int>>)
    decreases |s|
  {
    if s == [] then Some([])
    else if |s| < 4 then None
    else
      var head := DecodeQuantum(s[..4], |s| == 4);
      var tail := Decode(s[4..]);
      if head.None? || tail.None? then None else Some(head.value + tail.value)
  }

  lemma QuantumOfOne(b0: int)
    requires IsByte(b0)
    ensures DecodeQuantum([SextetChar(Sextet0(b0)), SextetChar(Sextet1(b0, 0)), '=', '='], true) == Some([b0])
  {
    SextetsCarryBytes(b0, 0, 0);
    SextetRoundTrip(Sextet0(b0));
    SextetRoundTrip(Sextet1(b0, 0));
  }

  lemma QuantumOfTwo(b0: int, b1: int)
    requires IsByte(b0) && IsByte(b1)
    ensures DecodeQuantum([SextetChar(Sextet0(b0)), SextetChar(Sextet1(b0, b1)), SextetChar(Sextet2(b1, 0)), '='], true)
            == Some([b0, b1])
  {
    SextetsCarryBytes(b0, b1, 0);
    SextetRoundTrip(Sextet0(b0));
    SextetRoundTrip(Sextet1(b0, b1));
    SextetRoundTrip(Sextet2(b1, 0));
  }

  lemma QuantumOfThree(b0: int, b1: int, b2: int, last: bool)
    requires IsByte(b0) && IsByte(b1) && IsByte(b2)
    ensures DecodeQuantum([SextetChar(Sextet0(b0)), SextetChar(Sextet1(b0, b1)),
                           SextetChar(Sextet2(b1, b2)), SextetChar(Sextet3(b2))], last)
            == Some([b0, b1, b2])
  {
    SextetsCarryBytes(b0, b1, b2);
    SextetRoundTrip(Sextet0(b0));
    SextetRoundTrip(Sextet1(b0, b1));
    SextetRoundTrip(Sextet2(b1, b2));
    SextetRoundTrip(Sextet3(b2));
  }

  /** A text of one final quantum decodes to what that quantum carries. */
  lemma DecodeSingleQuantum(q: string)
    requires |q| == 4 && DecodeQuantum(q, true).Some?
    ensures Decode(q) == DecodeQuantum(q, true)
  {
    assert q[..4] == q && q[4..] == [];
    assert DecodeQuantum(q, true).value + [] == DecodeQuantum(q, true).value;
  }

  lemma DecodeEncodeOne(b0: int)
    requires IsByte(b0)
    ensures Decode(Encode([b0])) == Some([b0])
  {
    QuantumOfOne(b0);
    DecodeSingleQuantum(Encode([b0]));
  }

  lemma DecodeEncodeTwo(b0: int, b1: int)
    requires IsByte(b0) && IsByte(b1)
    ensures Decode(Encode([b0, b1])) == Some([b0, b1])
  {
    QuantumOfTwo(b0, b1);
    DecodeSingleQuantum(Encode([b0, b1]));
  }

  /** A full quantum in front of more text decodes to its three bytes followed by the rest's bytes. */
  lemma DecodeFullQuantum(q: string, rest: string, bytes: seq<int>, tail: seq<int>)
    requires |q| == 4
    requires DecodeQuantum(q, |rest| == 0) == Some(bytes) && Decode(rest) == Some(tail)
    ensures Decode(q + rest) == Some(bytes + tail)
  {
    var s := q + rest;
    assert s[..4] == q && s[4..] == rest;
  }

  /** Encoding three bytes or more starts with their first quantum. */
  lemma EncodeStep(b: seq<int>)
    requires |b| >= 3 && forall i :: 0 <= i < |b| ==> IsByte(b[i])
    ensures Encode(b) == FirstQuantum(b) + Encode(b[3..])
  {
    var rest := b[3..];
    assert forall i :: 0 <= i < |rest| ==> rest[i] == b[i + 3];
  }

  /** Three bytes or more: the first quantum carries the first three bytes and the rest follows. */
  lemma DecodeEncodeStep(b: seq<int>)
    requires |b| >= 3 && forall i :: 0 <= i < |b| ==> IsByte(b[i])
    requires Decode(Encode(b[3..])) == Some(b[3..])
    ensures Decode(Encode(b)) == Some(b)
  {
    var head, rest := [b[0], b[1], b[2]], Encode(b[3..]);
    EncodeStep(b);
    QuantumOfThree(b[0], b[1], b[2], |rest| == 0);
    DecodeFullQuantum(FirstQuantum(b), rest, head, b[3..]);
    SplitThree(b);
  }

  lemma SplitThree(b: seq<int>)
    requires |b| >= 3
    ensures [b[0], b[1], b[2]] + b[3..] == b
  {
  }

  /** Decoding inverts encoding: the RFC 4648 round trip. */
  lemma {:induction false} DecodeEncode(b: seq<int>)
    requires forall i :: 0 <= i < |b| ==> IsByte(b[i])
    ensures Decode(Encode(b)) == Some(b)
  {
    if |b| == 1 {
      DecodeEncodeOne(b[0]);
      assert [b[0]] == b;
    } else if |b| == 2 {
      DecodeEncodeTwo(b[0], b[1]);
      assert [b[0], b[1]] == b;
    } else if |b| >= 3 {
      DecodeEncode(b[3..]);
      DecodeEncodeStep(b);
    }
  }

  /** Text whose characters are all ASCII, carried one byte per character. */
  predicate IsAscii(t: string)
  {
    forall i :: 0 <= i < |t| ==> t[i] as int < 128
  }

  function AsciiBytes(t: string): (b: seq<int>)
    requires IsAscii(t)
    ensures |b| == |t| && forall i :: 0 <= i < |b| ==> IsByte(b[i]) && b[i] == t[i] as int
  {
    seq(|t|, i requires 0 <= i < |t| => t[i] as int)
  }

  /** Bytes read back as text, one character per byte; a byte outside ASCII becomes U+FFFD. */
  function AsciiText(b: seq<int>): (t: string)
    ensures |t| == |b|
    ensures forall i :: 0 <= i < |b| && 0 <= b[i] < 128 ==> t[i] as int == b[i]
  {
    seq(|b|, i requires 0 <= i < |b| => if 0 <= b[i] < 128 then b[i] as char else '\U{FFFD}')
  }

  /** The reference decoder as text to text: the decoded bytes read as ASCII text, or the empty
      text when the input is not well-formed base64. */
  function DecodeText(s: string): string
  {
    match Decode(s)
    case Some(b) => AsciiText(b)
    case None => ""
  }

  /** For ASCII text, the text decoder inverts encoding. */
  lemma DecodeTextEncode(t: string)
    requires IsAscii(t)
    ensures DecodeText(Encode(AsciiBytes(t))) == t
  {
    DecodeEncode(AsciiBytes(t));
    var r := AsciiText(AsciiBytes(t));
    assert forall i :: 0 <= i < |t| ==> r[i] == t[i];
  }
}
