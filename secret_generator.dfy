/**
 * Token generation: SHA-256 over the decimal instance id and 32 random bytes,
 * encoded with the URL-safe base64 alphabet of section 5 of RFC 4648 (with
 * `=` padding) and cut to the requested length.  SHA-256 and the operating
 * system's random source are supplied by the caller.
 */
module SecretGenerator {
  import opened Bits
  import opened Decimal
  import opened InstanceHandler

  /** The 32-byte blocks the generator works with: the random buffer and the digest. */
  type Block32 = s: seq<Byte> | |s| == 32 witness seq(32, i => 0)

  const DEFAULT_TOKEN_LENGTH: nat := 64
  /** The length of the base64 text of a 32-byte digest. */
  const ENCODED_DIGEST_LENGTH: nat := 44

  /** The URL-safe alphabet: `A-Z`, `a-z`, `0-9`, `-`, `_`. */
  predicate InAlphabet(c: char) {
    'A' <= c <= 'Z' || 'a' <= c <= 'z' || '0' <= c <= '9' || c == '-' || c == '_'
  }

  /** The character of one 6-bit value. */
  function SextetChar(v: nat): (c: char)
    requires v < 64
    ensures InAlphabet(c) && c != '='
  {
    if v < 26 then ('A' as int + v) as char
    else if v < 52 then ('a' as int + v - 26) as char
    else if v < 62 then ('0' as int + v - 52) as char
    else if v == 62 then '-'
    else '_'
  }

  /** The 6-bit value of a character of the alphabet (0 for any other character). */
  function SextetValue(c: char): (v: nat)
    ensures v < 64
  {
    if 'A' <= c <= 'Z' then c as int - 'A' as int
    else if 'a' <= c <= 'z' then c as int - 'a' as int + 26
    else if '0' <= c <= '9' then c as int - '0' as int + 52
    else if c == '-' then 62
    else if c == '_' then 63
    else 0
  }

  lemma SextetRoundTrip(v: nat)
    requires v < 64
    ensures SextetValue(SextetChar(v)) == v
  {
  }

  /** The number of `=` characters that close the encoding of `n` bytes. */
  function Padding(n: nat): (p: nat)
    ensures p <= 2
    ensures (n + p) % 3 == 0
  {
    (3 - n % 3) % 3
  }

  /** The four characters of three bytes. */
  function EncodeGroup(x0: Byte, x1: Byte, x2: Byte): (s: string)
    ensures |s| == 4 && forall i :: 0 <= i < 4 ==> InAlphabet(s[i])
  {
    [SextetChar(x0 / 4), SextetChar((x0 % 4) * 16 + x1 / 16),
     SextetChar((x1 % 16) * 4 + x2 / 64), SextetChar(x2 % 64)]
  }

  /** The last group of an input whose length leaves one byte over: two characters and `==`. */
  function EncodeOne(x0: Byte): (s: string)
    ensures |s| == 4 && InAlphabet(s[0]) && InAlphabet(s[1]) && s[2] == '=' && s[3] == '='
  {
    [SextetChar(x0 / 4), SextetChar((x0 % 4) * 16), '=', '=']
  }

  /** The last group of an input whose length leaves two bytes over: three characters and `=`. */
  function EncodeTwo(x0: Byte, x1: Byte): (s: string)
    ensures |s| == 4 && InAlphabet(s[0]) && InAlphabet(s[1]) && InAlphabet(s[2]) && s[3] == '='
  {
    [SextetChar(x0 / 4), SextetChar((x0 % 4) * 16 + x1 / 16), SextetChar((x1 % 16) * 4), '=']
  }

  /** Four characters for every started group of three bytes. */
  function EncodedLength(n: nat): (len: nat)
    ensures len % 4 == 0
  {
    if n == 0 then 0 else if n <= 3 then 4 else 4 + EncodedLength(n - 3)
  }

  /** Base64 encoding with padding, three bytes to four characters. */
  function Encode(b: seq<Byte>): (s: string)
    ensures |s| == EncodedLength(|b|)
  {
    if |b| == 0 then ""
    else if |b| == 1 then EncodeOne(b[0])
    else if |b| == 2 then EncodeTwo(b[0], b[1])
    else EncodeGroup(b[0], b[1], b[2]) + Encode(b[3..])
  }

  /** Past the first group, the encoding is that of the remaining bytes. */
  lemma EncodeUnfold(b: seq<Byte>, g: string, rest: string)
    requires |b| >= 3 && g == EncodeGroup(b[0], b[1], b[2]) && rest == Encode(b[3..])
    ensures Encode(b) == g + rest
  {
  }

  lemma EncodeIndexLong(e: string, g: string, rest: string, i: nat)
    requires e == g + rest && |g| == 4 && i < |e|
    ensures i >= 4 ==> e[i] == rest[i - 4]
    ensures i < 4 ==> e[i] == g[i]
  {
  }

  lemma PaddingStep(n: nat)
    requires n >= 3
    ensures Padding(n - 3) == Padding(n)
  {
    DivModUnique(n, (n - 3) / 3 + 1, 3, (n - 3) % 3);
  }

  /** Each character of the encoding is from the alphabet, except the closing padding. */
  lemma {:induction false} EncodeAt(b: seq<Byte>, i: nat)
    requires i < |Encode(b)|
    ensures i < |Encode(b)| - Padding(|b|) ==> InAlphabet(Encode(b)[i])
    ensures i >= |Encode(b)| - Padding(|b|) ==> Encode(b)[i] == '='
  {
    if |b| >= 3 {
      var g, rest := EncodeGroup(b[0], b[1], b[2]), Encode(b[3..]);
      EncodeUnfold(b, g, rest);
      EncodeIndexLong(Encode(b), g, rest, i);
      PaddingStep(|b|);
      if i >= 4 {
        EncodeAt(b[3..], i - 4);
      } else {
        assert |b[3..]| > 0 ==> EncodedLength(|b[3..]|) >= 4;
      }
    }
  }

  /** The encoding holds alphabet characters followed by exactly the padding. */
  lemma EncodeShape(b: seq<Byte>)
    ensures forall i :: 0 <= i < |Encode(b)| - Padding(|b|) ==> InAlphabet(Encode(b)[i])
    ensures forall i :: |Encode(b)| - Padding(|b|) <= i < |Encode(b)| ==> Encode(b)[i] == '='
  {
    forall i | 0 <= i < |Encode(b)| {
      EncodeAt(b, i);
    }
  }

  /** The three bytes one group of four characters stands for. */
  function DecodeGroup(c0: nat, c1: nat, c2: nat, c3: nat): (b: seq<Byte>)
    requires c0 < 64 && c1 < 64 && c2 < 64 && c3 < 64
    ensures |b| == 3
  {
    [c0 * 4 + c1 / 16, (c1 % 16) * 16 + c2 / 4, (c2 % 4) * 64 + c3]
  }

  /** Decoding, the inverse of `Encode` on its outputs. */
  function Decode(s: string): (b: seq<Byte>)
    decreases |s|
  {
    if |s| < 4 then []
    else
      var g := DecodeGroup(SextetValue(s[0]), SextetValue(s[1]), SextetValue(s[2]), SextetValue(s[3]));
      if s[2] == '=' then g[..1]
      else if s[3] == '=' then g[..2]
      else g + Decode(s[4..])
  }

  /** The bytes rebuilt from the four sextets of a group are the group's bytes. */
  lemma GroupRoundTrip(x0: Byte, x1: Byte, x2: Byte)
    ensures DecodeGroup(x0 / 4, (x0 % 4) * 16 + x1 / 16, (x1 % 16) * 4 + x2 / 64, x2 % 64) == [x0, x1, x2]
  {
    DivModUnique((x0 % 4) * 16 + x1 / 16, x0 % 4, 16, x1 / 16);
    DivModUnique((x1 % 16) * 4 + x2 / 64, x1 % 16, 4, x2 / 64);
  }

  lemma DecodeGroupOf(x0: Byte, x1: Byte, x2: Byte, rest: string)
    ensures Decode(EncodeGroup(x0, x1, x2) + rest) == [x0, x1, x2] + Decode(rest)
  {
    var c0, c1, c2, c3 := x0 / 4, (x0 % 4) * 16 + x1 / 16, (x1 % 16) * 4 + x2 / 64, x2 % 64;
    SextetRoundTrip(c0);
    SextetRoundTrip(c1);
    SextetRoundTrip(c2);
    SextetRoundTrip(c3);
    GroupRoundTrip(x0, x1, x2);
    var s := EncodeGroup(x0, x1, x2) + rest;
    assert s[0] == SextetChar(c0) && s[1] == SextetChar(c1) && s[2] == SextetChar(c2) && s[3] == SextetChar(c3);
    assert s[4..] == rest;
    assert Decode(s) == DecodeGroup(c0, c1, c2, c3) + Decode(rest);
  }

  lemma DecodeOne(x0: Byte)
    ensures Decode(EncodeOne(x0)) == [x0]
  {
    var c0, c1 := x0 / 4, (x0 % 4) * 16;
    SextetRoundTrip(c0);
    SextetRoundTrip(c1);
    GroupRoundTrip(x0, 0, 0);
    var s := EncodeOne(x0);
    assert Decode(s) == DecodeGroup(c0, c1, SextetValue('='), SextetValue('='))[..1];
  }

  lemma DecodeTwo(x0: Byte, x1: Byte)
    ensures Decode(EncodeTwo(x0, x1)) == [x0, x1]
  {
    var c0, c1, c2 := x0 / 4, (x0 % 4) * 16 + x1 / 16, (x1 % 16) * 4;
    SextetRoundTrip(c0);
    SextetRoundTrip(c1);
    SextetRoundTrip(c2);
    GroupRoundTrip(x0, x1, 0);
    var s := EncodeTwo(x0, x1);
    assert s[2] == SextetChar(c2);
    assert Decode(s) == DecodeGroup(c0, c1, c2, SextetValue('='))[..2];
  }

  lemma DecodeLong(b: seq<Byte>)
    requires |b| >= 3
    ensures Decode(Encode(b)) == [b[0], b[1], b[2]] + Decode(Encode(b[3..]))
  {
    DecodeGroupOf(b[0], b[1], b[2], Encode(b[3..]));
  }

  lemma DecodeShort(b: seq<Byte>)
    requires |b| < 3
    ensures Decode(Encode(b)) == b
  {
    if |b| == 1 {
      assert Encode(b) == EncodeOne(b[0]);
      DecodeOne(b[0]);
      assert b == [b[0]];
    } else if |b| == 2 {
      assert Encode(b) == EncodeTwo(b[0], b[1]);
      DecodeTwo(b[0], b[1]);
      assert b == [b[0], b[1]];
    }
  }

  /** Every byte string survives encoding and decoding. */
  lemma {:induction false} DecodeEncode(b: seq<Byte>)
    ensures Decode(Encode(b)) == b
  {
    if |b| < 3 {
      DecodeShort(b);
    } else {
      DecodeLong(b);
      DecodeEncode(b[3..]);
      assert b == [b[0], b[1], b[2]] + b[3..];
    }
  }

  /** A 32-byte digest encodes as 43 alphabet characters and one `=`. */
  lemma DigestEncoding(d: Block32)
    ensures |Encode(d)| == ENCODED_DIGEST_LENGTH
    ensures forall i :: 0 <= i < 43 ==> InAlphabet(Encode(d)[i])
    ensures Encode(d)[43] == '='
  {
    EncodeShape(d);
    assert Padding(|d|) == 1;
  }

  function Take(s: string, n: nat): (t: string)
    ensures |t| == if n < |s| then n else |s|
    ensures t <= s
  {
    if n < |s| then s[..n] else s
  }

  /** `to_string().as_bytes()` of the instance id: its ASCII decimal digits. */
  function DecimalBytes(n: nat): (b: seq<Byte>)
    ensures |b| == |Digits(n)|
    ensures forall i :: 0 <= i < |b| ==> b[i] == Digits(n)[i] as int
  {
    var d := Digits(n);
    seq(|d|, i requires 0 <= i < |d| => d[i] as int)
  }

  /** The incremental SHA-256 state: the bytes fed so far. */
  class Hasher {
    var input: seq<Byte>

    constructor ()
      ensures input == []
    {
      input := [];
    }

    method Update(data: seq<Byte>)
      modifies this
      ensures input == old(input) + data
    {
      input := input + data;
    }

    function Finalize(sha256: seq<Byte> -> Block32): (digest: Block32)
      reads this
      ensures digest == sha256(input)
    {
      sha256(input)
    }
  }

  /** The text a token of `length` characters is cut from. */
  function FullToken(instanceId: U16, random: Block32, sha256: seq<Byte> -> Block32): (s: string)
    ensures |s| == ENCODED_DIGEST_LENGTH
  {
    var d := sha256(DecimalBytes(instanceId) + random);
    DigestEncoding(d);
    Encode(d)
  }

  class SecretGeneratorInner {
    const handler: Handler

    constructor (handler: Handler)
      ensures this.handler == handler
    {
      this.handler := handler;
    }

    /**
     * `generate_token_with_length`, given the 32 bytes the random source
     * fills the buffer with: at most 44 characters of the alphabet, with
     * `=` possible only as the 44th.
     */
    method GenerateTokenWithLength(length: nat, random: Block32, sha256: seq<Byte> -> Block32)
      returns (token: string)
      ensures token == Take(FullToken(handler.GetInstanceId(), random, sha256), length)
      ensures |token| == if length < ENCODED_DIGEST_LENGTH then length else ENCODED_DIGEST_LENGTH
      ensures forall i :: 0 <= i < |token| ==> InAlphabet(token[i]) || (i == 43 && token[i] == '=')
    {
      var hasher := new Hasher();
      hasher.Update(DecimalBytes(handler.GetInstanceId()));
      hasher.Update(random);
      assert hasher.input == DecimalBytes(handler.GetInstanceId()) + random;
      var digest := hasher.Finalize(sha256);
      DigestEncoding(digest);
      token := Take(Encode(digest), length);
    }

    /** `generate_token`: the default length 64 exceeds the encoding, so 44 characters come back. */
    method GenerateToken(random: Block32, sha256: seq<Byte> -> Block32) returns (token: string)
      ensures token == FullToken(handler.GetInstanceId(), random, sha256)
      ensures |token| == 44 && |token| < DEFAULT_TOKEN_LENGTH
    {
      token := GenerateTokenWithLength(DEFAULT_TOKEN_LENGTH, random, sha256);
    }
  }

  /** A token of at most 43 characters has no padding. */
  lemma ShortTokenUnpadded(instanceId: U16, random: Block32, sha256: seq<Byte> -> Block32, length: nat)
    requires length <= 43
    ensures '=' !in Take(FullToken(instanceId, random, sha256), length)
  {
    var d := sha256(DecimalBytes(instanceId) + random);
    DigestEncoding(d);
    var t := Take(FullToken(instanceId, random, sha256), length);
    forall i | 0 <= i < |t| ensures t[i] != '=' {
      assert t[i] == Encode(d)[i];
    }
  }
}
