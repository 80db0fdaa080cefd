/** Byte-level decoding shared by both packet analyzers: the IPv4 header fields
    of section 3.1 of RFC 791 (version and IHL nibbles of byte 0, protocol at
    byte 9, source and destination addresses at bytes 12 and 16), the big-endian
    16-bit port words of TCP (section 3.1 of RFC 793) and UDP (RFC 768), and
    the dotted-decimal text of an address, with a parser that inverts it. */
module PacketCodec {
  import opened Common

  /** The version nibble: the high four bits of byte 0. */
  function Version(b0: uint8): (v: int)
    ensures 0 <= v < 16
  {
    b0 / 16
  }

  /** The header length in bytes: the low nibble of byte 0 counts 32-bit words. */
  function HeaderLength(b0: uint8): (n: int)
    ensures 0 <= n <= 60 && n % 4 == 0
  {
    (b0 % 16) * 4
  }

  /** Byte 0 is exactly its two nibbles: nothing is lost by splitting it. */
  lemma NibblesRecompose(b0: uint8)
    ensures Version(b0) * 16 + HeaderLength(b0) / 4 == b0
    ensures Version(b0) == 4 <==> 64 <= b0 < 80
  {
  }

  /** A big-endian 16-bit word: `((hi and 0xFF) shl 8) or (lo and 0xFF)`. */
  function Word16(hi: uint8, lo: uint8): (w: int)
    ensures 0 <= w < 65536
  {
    hi * 256 + lo
  }

  /** The two bytes of a word, most significant first. */
  function WordBytes(w: int): (r: (uint8, uint8))
    requires 0 <= w < 65536
  {
    (w / 256, w % 256)
  }

  lemma Word16RoundTrip(hi: uint8, lo: uint8, w: int)
    requires 0 <= w < 65536
    ensures Word16(WordBytes(w).0, WordBytes(w).1) == w
    ensures WordBytes(Word16(hi, lo)) == (hi, lo)
  {
  }

  // ---------------------------------------------------------------------------
  // Dotted-decimal addresses

  /** Four unsigned octets as decimal numbers joined by ".", which is what both
      `getIpAddress` and `InetAddress.getByAddress(..).hostAddress` produce. */
  function DottedQuad(a: uint8, b: uint8, c: uint8, d: uint8): string {
    NatToString(a) + "." + (NatToString(b) + "." + (NatToString(c) + "." + NatToString(d)))
  }

  /** The address stored in the four bytes at `offset`. */
  function IpAt(buffer: seq<uint8>, offset: nat): string
    requires offset + 4 <= |buffer|
  {
    DottedQuad(buffer[offset], buffer[offset + 1], buffer[offset + 2], buffer[offset + 3])
  }

  /** The index of the first `c` in `s`, if any. */
  function IndexOf(s: string, c: char): (r: Option<nat>)
    ensures r.None? <==> c !in s
    ensures r.Some? ==> r.value < |s| && s[r.value] == c && c !in s[..r.value]
  {
    if |s| == 0 then None
    else if s[0] == c then Some(0)
    else
      match IndexOf(s[1..], c)
      case None => None
      case Some(i) =>
        assert s[..i + 1] == [s[0]] + s[1..][..i];
        Some(i + 1)
  }

  /** `s` cut at every `c`; always at least one piece. */
  function Split(s: string, c: char): (r: seq<string>)
    ensures |r| >= 1
    decreases |s|
  {
    match IndexOf(s, c)
    case None => [s]
    case Some(i) => [s[..i]] + Split(s[i + 1..], c)
  }

  lemma SplitNoDelimiter(s: string, c: char)
    requires c !in s
    ensures Split(s, c) == [s]
  {
  }

  lemma IndexAfterPiece(x: string, c: char, y: string)
    requires c !in x
    ensures IndexOf(x + [c] + y, c) == Some(|x|)
  {
    var s := x + [c] + y;
    assert s[|x|] == c;
    assert s[..|x|] == x;
  }

  /** The first `c` of a prefix that has one is the first `c` of the whole text. */
  lemma {:induction false} IndexOfPrefix(s: string, p: string, c: char)
    requires StartsWith(s, p) && c in p
    ensures IndexOf(s, c) == IndexOf(p, c)
    decreases |p|
  {
    assert s[0] == p[0];
    if p[0] != c {
      assert s[1..][..|p| - 1] == p[1..];
      assert c in p[1..] by {
        var k :| 0 <= k < |p| && p[k] == c;
        assert p[1..][k - 1] == c;
      }
      IndexOfPrefix(s[1..], p[1..], c);
    }
  }

  lemma SplitAtFirst(x: string, c: char, y: string)
    requires c !in x
    ensures Split(x + [c] + y, c) == [x] + Split(y, c)
  {
    var s := x + [c] + y;
    IndexAfterPiece(x, c, y);
    assert s[..|x|] == x;
    assert s[|x| + 1..] == y;
  }

  lemma NoDotInNumber(n: nat)
    ensures '.' !in NatToString(n)
  {
    NatToStringDigits(n);
  }

  /** Four dot-free pieces joined by dots split back into those pieces. */
  lemma SplitFourPieces(A: string, B: string, C: string, D: string)
    requires '.' !in A && '.' !in B && '.' !in C && '.' !in D
    ensures Split(A + ['.'] + (B + ['.'] + (C + ['.'] + D)), '.') == [A, B, C, D]
  {
    var s3 := C + ['.'] + D;
    var s2 := B + ['.'] + s3;
    assert Split(s3, '.') == [C, D] by {
      SplitNoDelimiter(D, '.');
      SplitAtFirst(C, '.', D);
    }
    assert Split(s2, '.') == [B, C, D] by {
      SplitAtFirst(B, '.', s3);
    }
    SplitAtFirst(A, '.', s2);
  }

  lemma SplitDottedQuad(a: uint8, b: uint8, c: uint8, d: uint8)
    ensures Split(DottedQuad(a, b, c, d), '.')
         == [NatToString(a), NatToString(b), NatToString(c), NatToString(d)]
  {
    NoDotInNumber(a);
    NoDotInNumber(b);
    NoDotInNumber(c);
    NoDotInNumber(d);
    SplitFourPieces(NatToString(a), NatToString(b), NatToString(c), NatToString(d));
  }

  function ParseOctet(s: string): (r: Option<uint8>)
    ensures r.Some? ==> ParseNat(s) == Some(r.value as nat)
  {
    match ParseNat(s)
    case Some(n) => if n < 256 then Some(n) else None
    case None => None
  }

  /** Parses dotted-decimal text: exactly four pieces, each a decimal number below 256. */
  function ParseDottedQuad(s: string): Option<(uint8, uint8, uint8, uint8)> {
    var parts := Split(s, '.');
    if |parts| != 4 then None
    else
      match (ParseOctet(parts[0]), ParseOctet(parts[1]), ParseOctet(parts[2]), ParseOctet(parts[3]))
      case (Some(a), Some(b), Some(c), Some(d)) => Some((a, b, c, d))
      case _ => None
  }

  /** Formatting an address and parsing it back gives the four octets. */
  lemma ParseDottedQuadRoundTrip(a: uint8, b: uint8, c: uint8, d: uint8)
    ensures ParseDottedQuad(DottedQuad(a, b, c, d)) == Some((a, b, c, d))
  {
    SplitDottedQuad(a, b, c, d);
    ParseNatToString(a);
    ParseNatToString(b);
    ParseNatToString(c);
    ParseNatToString(d);
  }

  /** Distinct addresses have distinct texts, so an address string identifies its bytes. */
  lemma DottedQuadInjective(a: uint8, b: uint8, c: uint8, d: uint8,
                            a': uint8, b': uint8, c': uint8, d': uint8)
    requires DottedQuad(a, b, c, d) == DottedQuad(a', b', c', d')
    ensures a == a' && b == b' && c == c' && d == d'
  {
    ParseDottedQuadRoundTrip(a, b, c, d);
    ParseDottedQuadRoundTrip(a', b', c', d');
  }

  // ---------------------------------------------------------------------------
  // Decimal text cannot be extended past a leading zero

  lemma NumberStartingWithZero(n: nat)
    requires NatToString(n)[0] == '0'
    ensures n == 0
  {
    if n >= 10 {
      NatToStringLeadingDigit(n);
    }
  }

  lemma {:induction false} NatToStringLeadingDigit(n: nat)
    requires n >= 10
    ensures NatToString(n)[0] != '0'
    decreases n
  {
    var m := n / 10;
    assert NatToString(n) == NatToString(m) + [DigitChar(n % 10)];
    if m >= 10 {
      NatToStringLeadingDigit(m);
    }
  }

  /** An address text that starts with the text of "a.b.c.0" is that address:
      the last octet of the prefix is "0", which no other octet's text starts with. */
  lemma PrefixOfZeroHost(a: uint8, b: uint8, c: uint8,
                         w: uint8, x: uint8, y: uint8, z: uint8)
    ensures StartsWith(DottedQuad(w, x, y, z), DottedQuad(a, b, c, 0))
        <==> w == a && x == b && y == c && z == 0
  {
    var A, B, C, Z0 := NatToString(a), NatToString(b), NatToString(c), NatToString(0);
    var W, X, Y, Z := NatToString(w), NatToString(x), NatToString(y), NatToString(z);
    if StartsWith(DottedQuad(w, x, y, z), DottedQuad(a, b, c, 0)) {
      NoDotInNumber(a);
      NoDotInNumber(b);
      NoDotInNumber(c);
      NoDotInNumber(w);
      NoDotInNumber(x);
      NoDotInNumber(y);
      PeelOctet(A, W, B + ['.'] + (C + ['.'] + Z0), X + ['.'] + (Y + ['.'] + Z));
      PeelOctet(B, X, C + ['.'] + Z0, Y + ['.'] + Z);
      PeelOctet(C, Y, Z0, Z);
      assert Z[0] == '0';
      NumberStartingWithZero(z);
      ParseNatToString(a);
      ParseNatToString(b);
      ParseNatToString(c);
      ParseNatToString(w);
      ParseNatToString(x);
      ParseNatToString(y);
    }
  }

  /** Two dot-terminated pieces without dots, one text a prefix of the other:
      the pieces agree and the rest is again a prefix. */
  lemma PeelOctet(a: string, w: string, u: string, v: string)
    requires '.' !in a && '.' !in w
    requires StartsWith(w + ['.'] + v, a + ['.'] + u)
    ensures a == w && StartsWith(v, u)
  {
    var s, p := w + ['.'] + v, a + ['.'] + u;
    assert s[..|p|] == p;
    IndexAfterPiece(w, '.', v);
    IndexAfterPiece(a, '.', u);
    IndexOfPrefix(s, p, '.');
    assert a == p[..|a|] == s[..|a|] == w;
    assert v[..|u|] == s[|a| + 1..|p|] == p[|a| + 1..] == u;
  }
}
