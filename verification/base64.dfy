/** The base64 text carried by `data:application/x-mpegURL;base64,` manifests,
    decoded with the alphabet and padding of section 4 of RFC 4648. Each
    quantum of four characters stands for three bytes; only the last quantum
    may end in one or two "=" and then stands for two bytes or one. */
module Base64 {
  import opened Common

  /** The value of an alphabet character (Table 1 of RFC 4648): A-Z, a-z,
      0-9, "+" and "/" stand for 0 to 63. */
  function CharValue(c: char): (r: Option<nat>)
    ensures r.Some? ==> r.value < 64
  {
    if 'A' <= c <= 'Z' then Some(c as nat - 'A' as nat)
    else if 'a' <= c <= 'z' then Some(c as nat - 'a' as nat + 26)
    else if '0' <= c <= '9' then Some(c as nat - '0' as nat + 52)
    else if c == '+' then Some(62)
    else if c == '/' then Some(63)
    else None
  }

  /** The alphabet character for a six-bit value. */
  function EncodeChar(v: nat): (c: char)
    requires v < 64
    ensures CharValue(c) == Some(v)
  {
    if v < 26 then ('A' as nat + v) as char
    else if v < 52 then ('a' as nat + v - 26) as char
    else if v < 62 then ('0' as nat + v - 52) as char
    else if v == 62 then '+'
    else '/'
  }

  /** The alphabet is a bijection between six-bit values and its characters;
      "=" is not one of them. */
  lemma CharValueEncodeChar(v: nat, c: char)
    requires v < 64
    ensures CharValue(EncodeChar(v)) == Some(v)
    ensures CharValue(c) == Some(v) ==> EncodeChar(v) == c
    ensures CharValue('=').None?
  {
  }

  // ---------------------------------------------------------------------------
  // Encoding

  /** Three bytes as four characters: 24 bits cut into four six-bit groups. */
  function EncodeQuantum(b0: uint8, b1: uint8, b2: uint8): string {
    [EncodeChar(b0 / 4), EncodeChar(b0 % 4 * 16 + b1 / 16),
     EncodeChar(b1 % 16 * 4 + b2 / 64), EncodeChar(b2 % 64)]
  }

  /** Padded base64 text of `b`. */
  function Encode(b: seq<uint8>): (r: string)
    ensures |r| == (|b| + 2) / 3 * 4
    decreases |b|
  {
    if |b| == 0 then ""
    else if |b| == 1 then [EncodeChar(b[0] / 4), EncodeChar(b[0] % 4 * 16), '=', '=']
    else if |b| == 2 then
      [EncodeChar(b[0] / 4), EncodeChar(b[0] % 4 * 16 + b[1] / 16), EncodeChar(b[1] % 16 * 4), '=']
    else EncodeQuantum(b[0], b[1], b[2]) + Encode(b[3..])
  }

  // ---------------------------------------------------------------------------
  // Decoding

  /** One quantum; `last` says whether padding is allowed in it. The bits
      that padding leaves over are not checked. */
  function DecodeQuantum(q: string, last: bool): (r: Option<seq<uint8>>)
    requires |q| == 4
    ensures r.Some? ==> 1 <= |r.value| <= 3
    ensures r.Some? && |r.value| < 3 ==> last && q[3] == '='
    ensures r.Some? && |r.value| == 1 ==> q[2] == '='
  {
    match (CharValue(q[0]), CharValue(q[1]), CharValue(q[2]), CharValue(q[3]))
    case (Some(v0), Some(v1), Some(v2), Some(v3)) =>
      Some([v0 * 4 + v1 / 16, v1 % 16 * 16 + v2 / 4, v2 % 4 * 64 + v3])
    case (Some(v0), Some(v1), Some(v2), None) =>
      if last && q[3] == '=' then Some([v0 * 4 + v1 / 16, v1 % 16 * 16 + v2 / 4]) else None
    case (Some(v0), Some(v1), None, None) =>
      if last && q[2] == '=' && q[3] == '=' then Some([v0 * 4 + v1 / 16]) else None
    case _ => None
  }

  /** Strict decoding: the text is whole quanta, and a quantum with padding
      is the last one. */
  function Decode(s: string): (r: Option<seq<uint8>>)
    ensures r.Some? ==> |s| % 4 == 0
    ensures r.Some? ==> |s| / 4 * 3 - 2 <= |r.value| <= |s| / 4 * 3
    decreases |s|
  {
    if |s| == 0 then Some([])
    else if |s| < 4 then None
    else
      match DecodeQuantum(s[..4], |s| == 4)
      case None => None
      case Some(bytes) =>
        match Decode(s[4..])
        case None => None
        case Some(rest) => Some(bytes + rest)
  }

  /** Decoding takes the text one quantum at a time. */
  lemma DecodeStep(q: string, t: string)
    requires |q| == 4
    ensures Decode(q + t) ==
      match DecodeQuantum(q, |t| == 0)
      case None => None
      case Some(bytes) =>
        match Decode(t)
        case None => None
        case Some(rest) => Some(bytes + rest)
  {
    assert (q + t)[..4] == q;
    assert (q + t)[4..] == t;
  }

  /** A decoded quantum followed by decoded text. */
  lemma DecodeAppend(q: string, t: string, bytes: seq<uint8>, rest: seq<uint8>)
    requires |q| == 4 && DecodeQuantum(q, |t| == 0) == Some(bytes) && Decode(t) == Some(rest)
    ensures Decode(q + t) == Some(bytes + rest)
  {
    DecodeStep(q, t);
  }

  /** A text of one quantum is decoded as the last quantum. */
  lemma DecodeLast(q: string)
    requires |q| == 4
    ensures Decode(q) == DecodeQuantum(q, true)
  {
    DecodeStep(q, "");
    assert q + "" == q;
    assert Decode("") == Some([]);
    match DecodeQuantum(q, true)
    case None =>
    case Some(bytes) =>
      assert bytes + [] == bytes;
  }

  /** A quantum of four alphabet characters. */
  lemma DecodeFullQuantum(q: string, last: bool, v0: nat, v1: nat, v2: nat, v3: nat)
    requires |q| == 4
    requires CharValue(q[0]) == Some(v0) && CharValue(q[1]) == Some(v1)
    requires CharValue(q[2]) == Some(v2) && CharValue(q[3]) == Some(v3)
    ensures DecodeQuantum(q, last) == Some([v0 * 4 + v1 / 16, v1 % 16 * 16 + v2 / 4, v2 % 4 * 64 + v3])
  {
  }

  // ---------------------------------------------------------------------------
  // Round trip

  /** Cutting 24 bits into six-bit groups and joining them again. */
  lemma QuantumArithmetic(b0: uint8, b1: uint8, b2: uint8)
    ensures b0 / 4 * 4 + (b0 % 4 * 16 + b1 / 16) / 16 == b0
    ensures (b0 % 4 * 16 + b1 / 16) % 16 * 16 + (b1 % 16 * 4 + b2 / 64) / 4 == b1
    ensures (b1 % 16 * 4 + b2 / 64) % 4 * 64 + b2 % 64 == b2
  {
  }

  lemma QuantumRoundTrip(b0: uint8, b1: uint8, b2: uint8, last: bool)
    ensures DecodeQuantum(EncodeQuantum(b0, b1, b2), last) == Some([b0, b1, b2])
  {
    var v0, v1, v2, v3 := b0 / 4, b0 % 4 * 16 + b1 / 16, b1 % 16 * 4 + b2 / 64, b2 % 64;
    CharValueEncodeChar(v0, ' ');
    CharValueEncodeChar(v1, ' ');
    CharValueEncodeChar(v2, ' ');
    CharValueEncodeChar(v3, ' ');
    DecodeFullQuantum(EncodeQuantum(b0, b1, b2), last, v0, v1, v2, v3);
    QuantumArithmetic(b0, b1, b2);
  }

  /** The last quantum of a one-byte tail. */
  lemma OneByteRoundTrip(b0: uint8)
    ensures DecodeQuantum(Encode([b0]), true) == Some([b0])
  {
    var v0, v1 := b0 / 4, b0 % 4 * 16;
    CharValueEncodeChar(v0, ' ');
    CharValueEncodeChar(v1, ' ');
    QuantumArithmetic(b0, 0, 0);
  }

  /** The last quantum of a two-byte tail. */
  lemma TwoBytesRoundTrip(b0: uint8, b1: uint8)
    ensures DecodeQuantum(Encode([b0, b1]), true) == Some([b0, b1])
  {
    var v0, v1, v2 := b0 / 4, b0 % 4 * 16 + b1 / 16, b1 % 16 * 4;
    CharValueEncodeChar(v0, ' ');
    CharValueEncodeChar(v1, ' ');
    CharValueEncodeChar(v2, ' ');
    QuantumArithmetic(b0, b1, 0);
  }

  /** A tail shorter than a quantum. */
  lemma DecodeEncodeShort(b: seq<uint8>)
    requires 1 <= |b| <= 2
    ensures Decode(Encode(b)) == Some(b)
  {
    if |b| == 1 {
      assert b == [b[0]];
      OneByteRoundTrip(b[0]);
    } else {
      assert b == [b[0], b[1]];
      TwoBytesRoundTrip(b[0], b[1]);
    }
    DecodeLast(Encode(b));
  }

  /** Decoding undoes encoding, for every byte sequence. */
  lemma {:induction false} DecodeEncode(b: seq<uint8>)
    ensures Decode(Encode(b)) == Some(b)
    decreases |b|
  {
    if 1 <= |b| <= 2 {
      DecodeEncodeShort(b);
    } else if |b| >= 3 {
      var q, t := EncodeQuantum(b[0], b[1], b[2]), Encode(b[3..]);
      assert Encode(b) == q + t;
      QuantumRoundTrip(b[0], b[1], b[2], |t| == 0);
      DecodeEncode(b[3..]);
      DecodeAppend(q, t, [b[0], b[1], b[2]], b[3..]);
      assert b == [b[0], b[1], b[2]] + b[3..];
    }
  }

  /** Encoding is one-to-one: distinct byte sequences have distinct texts. */
  lemma EncodeInjective(a: seq<uint8>, b: seq<uint8>)
    requires Encode(a) == Encode(b)
    ensures a == b
  {
    DecodeEncode(a);
    DecodeEncode(b);
  }

  /** The converse does not hold: the bits after the last byte are ignored,
      so two texts decode to the same byte ("QR==" is not canonical). */
  lemma PadBitsIgnored()
    ensures Decode("QQ==") == Decode("QR==") == Some([65])
    ensures Encode([65]) == "QQ=="
  {
    DecodeLast("QQ==");
    DecodeLast("QR==");
  }

  /** Padding is accepted only in the last quantum: a quantum holding '=' that
      is followed by more text makes the whole text undecodable. */
  lemma PaddingOnlyAtEnd(q: string, t: string)
    requires |q| == 4 && '=' in q && |t| > 0
    ensures Decode(q + t).None?
  {
    PaddedQuantumNotFull(q);
    DecodeStep(q, t);
  }

  /** A quantum holding '=' is not a full quantum. */
  lemma PaddedQuantumNotFull(q: string)
    requires |q| == 4 && '=' in q
    ensures DecodeQuantum(q, false).None?
  {
    var i :| 0 <= i < 4 && q[i] == '=';
    CharValueEncodeChar(0, 'A');
    assert CharValue(q[i]).None?;
  }

  /** The base64 text "I0VYVE0zVQ==" decodes to the bytes of "#EXTM3U", the
      first line of every HLS playlist. */
  lemma PlaylistHeaderExample()
    ensures Decode("I0VYVE0zVQ==") == Some([35, 69, 88, 84, 77, 51, 85])
  {
    DecodeLast("VQ==");
    assert Decode("VQ==") == Some([85]);
    DecodeStep("VE0z", "VQ==");
    assert "VE0z" + "VQ==" == "VE0zVQ==";
    DecodeFullQuantum("VE0z", false, 21, 4, 52, 51);
    assert Decode("VE0zVQ==") == Some([84, 77, 51] + [85]);
    DecodeStep("I0VY", "VE0zVQ==");
    assert "I0VY" + "VE0zVQ==" == "I0VYVE0zVQ==";
    DecodeFullQuantum("I0VY", false, 8, 52, 21, 24);
    assert [35, 69, 88] + ([84, 77, 51] + [85]) == [35, 69, 88, 84, 77, 51, 85];
  }
}
