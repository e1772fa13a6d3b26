/** The standard base64 encoding of section 4 of RFC 4648, as Go's
    `base64.StdEncoding` decodes it for the Basic-authentication middleware:
    padding is required, carriage returns and line feeds are skipped, and
    the unused low bits of a padded final quantum are not checked. */
module Base64 {
  import opened Outcomes

  newtype byte = x: int | 0 <= x < 256

  /** The value of a character of the base64 alphabet (Table 1 of RFC 4648). */
  function SextetOf(c: char): (r: Option<nat>)
    ensures r.Some? ==> r.value < 64
  {
    if 'A' <= c <= 'Z' then Some(c as int - 'A' as int)
    else if 'a' <= c <= 'z' then Some(c as int - 'a' as int + 26)
    else if '0' <= c <= '9' then Some(c as int - '0' as int + 52)
    else if c == '+' then Some(62)
    else if c == '/' then Some(63)
    else None
  }

  /** The character of the alphabet for a 6-bit value. */
  function SextetChar(v: nat): (c: char)
    requires v < 64
    ensures SextetOf(c) == Some(v)
  {
    if v < 26 then ('A' as int + v) as char
    else if v < 52 then ('a' as int + v - 26) as char
    else if v < 62 then ('0' as int + v - 52) as char
    else if v == 62 then '+'
    else '/'
  }

  /** The alphabet is a bijection onto 0..63: every character with a value
      is the character of that value. */
  lemma SextetCharOf(c: char)
    requires SextetOf(c).Some?
    ensures SextetChar(SextetOf(c).value) == c
  {
  }

  // ---------------------------------------------------------------------
  // Decoding
  // ---------------------------------------------------------------------

  /** The three bytes of four sextets. */
  function Bytes3(a: nat, b: nat, c: nat, d: nat): seq<byte>
    requires a < 64 && b < 64 && c < 64 && d < 64
  {
    [(a * 4 + b / 16) as byte, ((b % 16) * 16 + c / 4) as byte, ((c % 4) * 64 + d) as byte]
  }

  /** A quantum that is not the last: four alphabet characters. */
  function DecodeFull(q: string): (r: Option<seq<byte>>)
    requires |q| == 4
    ensures r.Some? ==> |r.value| == 3
  {
    var a, b, c, d := SextetOf(q[0]), SextetOf(q[1]), SextetOf(q[2]), SextetOf(q[3]);
    if a.Some? && b.Some? && c.Some? && d.Some? then Some(Bytes3(a.value, b.value, c.value, d.value))
    else None
  }

  /** The last quantum: four alphabet characters, or two then "==", or three
      then "=". */
  function DecodeLast(q: string): (r: Option<seq<byte>>)
    requires |q| == 4
    ensures r.Some? ==> 1 <= |r.value| <= 3
    ensures r.Some? && |r.value| < 3 ==> q[3] == '='
  {
    var a, b, c, d := SextetOf(q[0]), SextetOf(q[1]), SextetOf(q[2]), SextetOf(q[3]);
    if a.None? || b.None? then None
    else if q[2] == '=' && q[3] == '=' then Some(Bytes3(a.value, b.value, 0, 0)[..1])
    else if c.Some? && q[3] == '=' then Some(Bytes3(a.value, b.value, c.value, 0)[..2])
    else if c.Some? && d.Some? then Some(Bytes3(a.value, b.value, c.value, d.value))
    else None
  }

  /** Decoding text free of line breaks: whole quanta only, padding only in
      the last one. */
  function DecodeQuanta(s: string): (r: Option<seq<byte>>)
    ensures r.Some? ==> |s| % 4 == 0
    decreases |s|
  {
    if s == [] then Some([])
    else if |s| < 4 then None
    else if |s| == 4 then DecodeLast(s)
    else
      match DecodeFull(s[..4])
      case None => None
      case Some(head) =>
        match DecodeQuanta(s[4..])
        case None => None
        case Some(rest) => Some(head + rest)
  }

  /** The input without its carriage returns and line feeds, which the
      decoder skips wherever they occur. */
  function WithoutLineBreaks(s: string): (r: string)
    ensures |r| <= |s|
    ensures '\r' !in r && '\n' !in r
  {
    if s == [] then []
    else (if s[0] == '\r' || s[0] == '\n' then [] else [s[0]]) + WithoutLineBreaks(s[1..])
  }

  /** `StdEncoding.DecodeString`: the bytes, or None for corrupt input. */
  function Decode(s: string): Option<seq<byte>> {
    DecodeQuanta(WithoutLineBreaks(s))
  }

  // ---------------------------------------------------------------------
  // Encoding
  // ---------------------------------------------------------------------

  /** The four sextets of three bytes, high bits first. */
  function Sextets(x: byte, y: byte, z: byte): (s: (nat, nat, nat, nat))
    ensures s.0 < 64 && s.1 < 64 && s.2 < 64 && s.3 < 64
    ensures Bytes3(s.0, s.1, s.2, s.3) == [x, y, z]
  {
    var b := (x as int % 4) * 16 + y as int / 16;
    var c := (y as int % 16) * 4 + z as int / 64;
    assert b / 16 == x as int % 4 && b % 16 == y as int / 16;
    assert c / 4 == y as int % 16 && c % 4 == z as int / 64;
    (x as int / 4, b, c, z as int % 64)
  }

  function Quantum(x: byte, y: byte, z: byte): (q: string)
    ensures |q| == 4
    ensures forall i | 0 <= i < 4 :: SextetOf(q[i]).Some?
    ensures '\r' !in q && '\n' !in q
  {
    assert SextetOf('\r').None? && SextetOf('\n').None?;
    var s := Sextets(x, y, z);
    [SextetChar(s.0), SextetChar(s.1), SextetChar(s.2), SextetChar(s.3)]
  }

  /** `StdEncoding.EncodeToString`: three bytes to four characters, the last
      one or two bytes padded with '='. */
  function Encode(bs: seq<byte>): (s: string)
    ensures '\r' !in s && '\n' !in s
    decreases |bs|
  {
    if |bs| == 0 then []
    else if |bs| == 1 then Quantum(bs[0], 0, 0)[..2] + "=="
    else if |bs| == 2 then Quantum(bs[0], bs[1], 0)[..3] + "="
    else Quantum(bs[0], bs[1], bs[2]) + Encode(bs[3..])
  }

  lemma FullQuantumDecodes(x: byte, y: byte, z: byte)
    ensures DecodeFull(Quantum(x, y, z)) == Some([x, y, z])
    ensures DecodeLast(Quantum(x, y, z)) == Some([x, y, z])
  {
    var s := Sextets(x, y, z);
    var q := Quantum(x, y, z);
    assert SextetOf(q[0]) == Some(s.0) && SextetOf(q[1]) == Some(s.1);
    assert SextetOf(q[2]) == Some(s.2) && SextetOf(q[3]) == Some(s.3);
  }

  lemma TwoByteQuantumDecodes(x: byte, y: byte)
    ensures DecodeLast(Quantum(x, y, 0)[..3] + "=") == Some([x, y])
  {
    var s := Sextets(x, y, 0);
    var q := Quantum(x, y, 0)[..3] + "=";
    assert SextetOf(q[0]) == Some(s.0) && SextetOf(q[1]) == Some(s.1) && SextetOf(q[2]) == Some(s.2);
    assert q[2] != '=' && q[3] == '=';
    assert Bytes3(s.0, s.1, s.2, s.3) == [x, y, 0];
    assert Bytes3(s.0, s.1, s.2, 0)[..2] == Bytes3(s.0, s.1, s.2, s.3)[..2] == [x, y];
    assert DecodeLast(q) == Some(Bytes3(s.0, s.1, s.2, 0)[..2]);
  }

  lemma OneByteQuantumDecodes(x: byte)
    ensures DecodeLast(Quantum(x, 0, 0)[..2] + "==") == Some([x])
  {
    var s := Sextets(x, 0, 0);
    var q := Quantum(x, 0, 0)[..2] + "==";
    assert SextetOf(q[0]) == Some(s.0) && SextetOf(q[1]) == Some(s.1);
    assert q[2] == '=' && q[3] == '=';
    assert Bytes3(s.0, s.1, s.2, s.3) == [x, 0, 0];
    assert Bytes3(s.0, s.1, 0, 0)[..1] == Bytes3(s.0, s.1, s.2, s.3)[..1] == [x];
    assert DecodeLast(q) == Some(Bytes3(s.0, s.1, 0, 0)[..1]);
  }

  lemma SplitThree(bs: seq<byte>)
    requires |bs| >= 3
    ensures bs == [bs[0], bs[1], bs[2]] + bs[3..]
  {
  }

  /** One, two or three bytes make the last quantum, which decodes back. */
  lemma ShortDecodes(bs: seq<byte>)
    requires 1 <= |bs| <= 3
    ensures DecodeQuanta(Encode(bs)) == Some(bs)
  {
    if |bs| == 1 {
      OneByteDecodes(bs);
    } else if |bs| == 2 {
      TwoBytesDecode(bs);
    } else {
      ThreeBytesDecode(bs);
    }
  }

  lemma OneByteDecodes(bs: seq<byte>)
    requires |bs| == 1
    ensures DecodeQuanta(Encode(bs)) == Some(bs)
  {
    OneByteQuantumDecodes(bs[0]);
    var e := Encode(bs);
    assert e == Quantum(bs[0], 0, 0)[..2] + "==";
    assert DecodeQuanta(e) == DecodeLast(e);
    assert bs == [bs[0]];
  }

  lemma TwoBytesDecode(bs: seq<byte>)
    requires |bs| == 2
    ensures DecodeQuanta(Encode(bs)) == Some(bs)
  {
    TwoByteQuantumDecodes(bs[0], bs[1]);
    var e := Encode(bs);
    assert e == Quantum(bs[0], bs[1], 0)[..3] + "=";
    assert DecodeQuanta(e) == DecodeLast(e);
    assert bs == [bs[0], bs[1]];
  }

  lemma ThreeBytesDecode(bs: seq<byte>)
    requires |bs| == 3
    ensures DecodeQuanta(Encode(bs)) == Some(bs)
  {
    FullQuantumDecodes(bs[0], bs[1], bs[2]);
    assert Encode(bs[3..]) == [];
    var e := Encode(bs);
    assert e == Quantum(bs[0], bs[1], bs[2]);
    assert DecodeQuanta(e) == DecodeLast(e) == Some([bs[0], bs[1], bs[2]]);
    assert [bs[0], bs[1], bs[2]] == bs;
  }

  /** A full quantum in front of a non-empty decodable rest. */
  lemma QuantumInFront(q: string, rest: string, head: seq<byte>, tail: seq<byte>)
    requires |q| == 4 && rest != []
    requires DecodeFull(q) == Some(head) && DecodeQuanta(rest) == Some(tail)
    ensures DecodeQuanta(q + rest) == Some(head + tail)
  {
    assert (q + rest)[..4] == q && (q + rest)[4..] == rest;
  }

  /** A full leading quantum decodes in front of the rest. */
  lemma LongDecodes(bs: seq<byte>)
    requires |bs| > 3
    requires DecodeQuanta(Encode(bs[3..])) == Some(bs[3..])
    ensures DecodeQuanta(Encode(bs)) == Some(bs)
  {
    var rest := Encode(bs[3..]);
    assert rest != [] by {
      assert DecodeQuanta([]) == Some([]) != Some(bs[3..]);
    }
    FullQuantumDecodes(bs[0], bs[1], bs[2]);
    QuantumInFront(Quantum(bs[0], bs[1], bs[2]), rest, [bs[0], bs[1], bs[2]], bs[3..]);
    SplitThree(bs);
  }

  lemma {:induction false} DecodeQuantaEncode(bs: seq<byte>)
    ensures DecodeQuanta(Encode(bs)) == Some(bs)
    decreases |bs|
  {
    if 1 <= |bs| <= 3 {
      ShortDecodes(bs);
    } else if |bs| > 3 {
      DecodeQuantaEncode(bs[3..]);
      LongDecodes(bs);
    }
  }

  /** Decoding undoes encoding, for every byte string. */
  lemma DecodeEncode(bs: seq<byte>)
    ensures Decode(Encode(bs)) == Some(bs)
  {
    NoLineBreaksKept(Encode(bs));
    DecodeQuantaEncode(bs);
  }

  /** Text without line breaks is left as it is. */
  lemma {:induction false} NoLineBreaksKept(s: string)
    requires '\r' !in s && '\n' !in s
    ensures WithoutLineBreaks(s) == s
    decreases |s|
  {
    if s != [] {
      assert s == [s[0]] + s[1..];
      NoLineBreaksKept(s[1..]);
    }
  }

  /** A padded one-byte quantum is decoded from the two characters alone. */
  lemma DecodeOneBytePadded(c0: char, c1: char)
    requires SextetOf(c0).Some? && SextetOf(c1).Some?
    ensures Decode([c0, c1, '=', '=']) == Some([(SextetOf(c0).value * 4 + SextetOf(c1).value / 16) as byte])
  {
    var q := [c0, c1, '=', '='];
    NoLineBreaksKept(q);
    assert DecodeQuanta(q) == DecodeLast(q);
    var a, b := SextetOf(c0).value, SextetOf(c1).value;
    assert DecodeLast(q) == Some(Bytes3(a, b, 0, 0)[..1]);
    assert Bytes3(a, b, 0, 0)[..1] == [(a * 4 + b / 16) as byte];
  }

  /** Decoding is not one-to-one: the unused low bits of a padded quantum
      are ignored, so "QR==" is accepted as another spelling of "QQ==". */
  lemma NonCanonicalAccepted()
    ensures Decode("QQ==") == Decode("QR==") == Some([65 as byte])
  {
    assert SextetOf('Q') == Some(16) && SextetOf('R') == Some(17);
    DecodeOneBytePadded('Q', 'Q');
    DecodeOneBytePadded('Q', 'R');
    assert 16 * 4 + 16 / 16 == 65 && 16 * 4 + 17 / 16 == 65;
    assert "QQ==" == ['Q', 'Q', '=', '='] && "QR==" == ['Q', 'R', '=', '='];
  }

  /** Text missing its padding is corrupt. */
  lemma UnpaddedRejected()
    ensures Decode("QQ").None? && Decode("QUI").None?
  {
    NoLineBreaksKept("QQ");
    NoLineBreaksKept("QUI");
  }

  // ---------------------------------------------------------------------
  // Text
  // ---------------------------------------------------------------------

  /** Go's `string(bytes)`: each byte is one character of the model. */
  function BytesText(bs: seq<byte>): (t: string)
    ensures |t| == |bs|
    ensures forall i | 0 <= i < |bs| :: t[i] as int == bs[i] as int
  {
    seq(|bs|, i requires 0 <= i < |bs| => bs[i] as int as char)
  }

  predicate IsByteText(t: string) {
    forall i | 0 <= i < |t| :: t[i] as int < 256
  }

  function TextBytes(t: string): (bs: seq<byte>)
    requires IsByteText(t)
    ensures BytesText(bs) == t
  {
    seq(|t|, i requires 0 <= i < |t| => t[i] as int as byte)
  }

  /** The decoder the middleware uses: the decoded bytes, read as text. */
  function DecodeText(s: string): (r: Option<string>)
    ensures r.Some? <==> Decode(s).Some?
    ensures r.Some? ==> r.value == BytesText(Decode(s).value)
  {
    match Decode(s)
    case None => None
    case Some(bs) => Some(BytesText(bs))
  }

  const StdDecode: string -> Option<string> := s => DecodeText(s)

  function EncodeText(t: string): string
    requires IsByteText(t)
  {
    Encode(TextBytes(t))
  }

  /** A client's encoding of its credentials comes back out. */
  lemma DecodeEncodeText(t: string)
    requires IsByteText(t)
    ensures StdDecode(EncodeText(t)) == Some(t)
  {
    DecodeEncode(TextBytes(t));
  }
}
