/**
 Canonical base64url of 32-byte session and CSRF material (sections 5 and 3.5
 of RFC 4648): 43-character tokens are decoded, encoded again and compared.
 */
module Base64Url {
  import opened Basics

  type Byte = n: nat | n < 256

  type Sextet = n: nat | n < 64

  const TOKEN_LENGTH := 43
  const MATERIAL_LENGTH := 32

  function CharOf(v: Sextet): char {
    if v < 26 then ('A' as int + v) as char
    else if v < 52 then ('a' as int + (v - 26)) as char
    else if v < 62 then ('0' as int + (v - 52)) as char
    else if v == 62 then '-' else '_'
  }

  predicate InAlphabet(c: char) {
    'A' <= c <= 'Z' || 'a' <= c <= 'z' || '0' <= c <= '9' || c == '-' || c == '_'
  }

  function ValueOf(c: char): Sextet
    requires InAlphabet(c)
  {
    if 'A' <= c <= 'Z' then c as int - 'A' as int
    else if 'a' <= c <= 'z' then c as int - 'a' as int + 26
    else if '0' <= c <= '9' then c as int - '0' as int + 52
    else if c == '-' then 62 else 63
  }

  predicate AllInAlphabet(t: string) {
    forall i | 0 <= i < |t| :: InAlphabet(t[i])
  }

  // The four sextets of three bytes, and the three bytes of four sextets.

  function Sextet0(x: Byte): Sextet { x / 4 }
  function Sextet1(x: Byte, y: Byte): Sextet { x % 4 * 16 + y / 16 }
  function Sextet2(y: Byte, z: Byte): Sextet { y % 16 * 4 + z / 64 }
  function Sextet3(z: Byte): Sextet { z % 64 }

  function Byte0(a: Sextet, b: Sextet): Byte { (a as int) * 4 + b / 16 }
  function Byte1(b: Sextet, c: Sextet): Byte { (b as int) % 16 * 16 + c / 4 }
  function Byte2(c: Sextet, d: Sextet): Byte { (c as int) % 4 * 64 + d }

  /** Three bytes as four characters. */
  function EncodeGroup(x: Byte, y: Byte, z: Byte): string {
    [CharOf(Sextet0(x)), CharOf(Sextet1(x, y)), CharOf(Sextet2(y, z)), CharOf(Sextet3(z))]
  }

  /** `urlsafe_b64encode(raw).rstrip("=")`: an incomplete group loses the characters that would only pad it. */
  function Encode(raw: seq<Byte>): string {
    if raw == [] then ""
    else if |raw| == 1 then EncodeGroup(raw[0], 0, 0)[..2]
    else if |raw| == 2 then EncodeGroup(raw[0], raw[1], 0)[..3]
    else EncodeGroup(raw[0], raw[1], raw[2]) + Encode(raw[3..])
  }

  /** Four characters as three bytes. */
  function DecodeGroup(t: string): (r: seq<Byte>)
    requires |t| == 4 && AllInAlphabet(t)
    ensures |r| == 3
  {
    var a, b, c, d := ValueOf(t[0]), ValueOf(t[1]), ValueOf(t[2]), ValueOf(t[3]);
    [Byte0(a, b), Byte1(b, c), Byte2(c, d)]
  }

  /** `urlsafe_b64decode` of the text with its padding restored: bits left over at the end are dropped. */
  function Decode(t: string): seq<Byte>
    requires AllInAlphabet(t)
  {
    if |t| <= 1 then []
    else if |t| == 2 then DecodeGroup(t + "AA")[..1]
    else if |t| == 3 then DecodeGroup(t + "A")[..2]
    else DecodeGroup(t[..4]) + Decode(t[4..])
  }

  /** The material behind a token; `None` stands for the raised rejection. */
  function DecodeToken(token: string): Option<seq<Byte>> {
    if |token| != TOKEN_LENGTH || !AllInAlphabet(token) then None
    else
      var raw := Decode(token);
      if |raw| != MATERIAL_LENGTH || Encode(raw) != token then None else Some(raw)
  }

  lemma CharsAndValues(v: Sextet, c: char)
    ensures InAlphabet(CharOf(v)) && ValueOf(CharOf(v)) == v
    ensures InAlphabet(c) ==> CharOf(ValueOf(c)) == c && (CharOf(v) == c <==> v == ValueOf(c))
  {
  }

  lemma GroupShape(x: Byte, y: Byte, z: Byte)
    ensures |EncodeGroup(x, y, z)| == 4 && AllInAlphabet(EncodeGroup(x, y, z))
  {
    CharsAndValues(Sextet0(x), 'A');
    CharsAndValues(Sextet1(x, y), 'A');
    CharsAndValues(Sextet2(y, z), 'A');
    CharsAndValues(Sextet3(z), 'A');
    hide Sextet0, Sextet1, Sextet2, Sextet3, Byte0, Byte1, Byte2, CharOf, InAlphabet;
  }

  lemma {:induction false} EncodeShape(raw: seq<Byte>)
    ensures AllInAlphabet(Encode(raw))
    ensures |Encode(raw)| == |raw| / 3 * 4 + (if |raw| % 3 == 0 then 0 else |raw| % 3 + 1)
  {
    hide EncodeGroup, InAlphabet;
    if |raw| == 1 {
      GroupShape(raw[0], 0, 0);
    } else if |raw| == 2 {
      GroupShape(raw[0], raw[1], 0);
    } else if |raw| >= 3 {
      GroupShape(raw[0], raw[1], raw[2]);
      EncodeShape(raw[3..]);
    }
  }

  lemma {:induction false} DecodeLength(t: string)
    requires AllInAlphabet(t)
    ensures |Decode(t)| == |t| / 4 * 3 + (if |t| % 4 <= 1 then 0 else |t| % 4 - 1)
  {
    hide InAlphabet, DecodeGroup;
    if |t| >= 4 {
      DecodeLength(t[4..]);
    }
  }

  lemma GroupArithmetic(x: Byte, y: Byte, z: Byte)
    ensures Byte0(Sextet0(x), Sextet1(x, y)) == x
    ensures Byte1(Sextet1(x, y), Sextet2(y, z)) == y
    ensures Byte2(Sextet2(y, z), Sextet3(z)) == z
  {
  }

  /** Decoding the characters of three bytes, or of their beginning, gives those bytes back. */
  lemma GroupRoundTrip(x: Byte, y: Byte, z: Byte)
    ensures |EncodeGroup(x, y, z)| == 4 && AllInAlphabet(EncodeGroup(x, y, z))
    ensures DecodeGroup(EncodeGroup(x, y, z)) == [x, y, z]
  {
    GroupShape(x, y, z);
    GroupArithmetic(x, y, z);
    CharsAndValues(Sextet0(x), 'A');
    CharsAndValues(Sextet1(x, y), 'A');
    CharsAndValues(Sextet2(y, z), 'A');
    CharsAndValues(Sextet3(z), 'A');
    hide Sextet0, Sextet1, Sextet2, Sextet3, Byte0, Byte1, Byte2, CharOf, ValueOf, InAlphabet;
  }

  lemma ZeroPads(x: Byte, y: Byte)
    ensures EncodeGroup(x, 0, 0)[..2] + "AA" == EncodeGroup(x, 0, 0)
    ensures EncodeGroup(x, y, 0)[..3] + "A" == EncodeGroup(x, y, 0)
  {
  }

  /** Decoding undoes encoding, for material of any length. */
  lemma {:induction false} DecodeEncode(raw: seq<Byte>)
    ensures AllInAlphabet(Encode(raw)) && Decode(Encode(raw)) == raw
  {
    EncodeShape(raw);
    hide EncodeGroup, DecodeGroup, InAlphabet;
    if |raw| == 1 {
      GroupRoundTrip(raw[0], 0, 0);
      ZeroPads(raw[0], 0);
    } else if |raw| == 2 {
      GroupRoundTrip(raw[0], raw[1], 0);
      ZeroPads(raw[0], raw[1]);
    } else if |raw| >= 3 {
      GroupRoundTrip(raw[0], raw[1], raw[2]);
      DecodeEncode(raw[3..]);
      FirstGroup(raw);
    }
  }

  lemma FirstGroup(raw: seq<Byte>)
    requires |raw| >= 3
    ensures |Encode(raw)| >= 4 && Encode(raw)[..4] == EncodeGroup(raw[0], raw[1], raw[2])
    ensures Encode(raw)[4..] == Encode(raw[3..])
  {
    GroupShape(raw[0], raw[1], raw[2]);
    hide EncodeGroup;
  }

  /** The bits that the last character of an incomplete group carries beyond whole bytes. */
  function SpareBits(t: string): nat
    requires AllInAlphabet(t) && |t| % 4 != 1
  {
    if |t| % 4 == 2 then ValueOf(t[|t| - 1]) % 16 else if |t| % 4 == 3 then ValueOf(t[|t| - 1]) % 4 else 0
  }

  lemma SextetArithmetic(a: Sextet, b: Sextet, c: Sextet, d: Sextet)
    ensures Sextet0(Byte0(a, b)) == a
    ensures Sextet1(Byte0(a, b), Byte1(b, c)) == b
    ensures Sextet2(Byte1(b, c), Byte2(c, d)) == c
    ensures Sextet3(Byte2(c, d)) == d
  {
  }

  lemma TailArithmetic(a: Sextet, b: Sextet, c: Sextet)
    ensures Sextet0(Byte0(a, b)) == a && Sextet1(Byte0(a, b), Byte1(b, c)) == b
    ensures Sextet2(Byte1(b, c), 0) == c <==> c % 4 == 0
    ensures Sextet1(Byte0(a, b), 0) == b <==> b % 16 == 0
  {
  }

  lemma DecodeTail(t: string)
    requires AllInAlphabet(t)
    ensures |t| == 2 ==> Decode(t) == [Byte0(ValueOf(t[0]), ValueOf(t[1]))]
    ensures |t| == 3 ==> Decode(t) == [Byte0(ValueOf(t[0]), ValueOf(t[1])), Byte1(ValueOf(t[1]), ValueOf(t[2]))]
  {
    hide ValueOf, InAlphabet, Byte0, Byte1, Byte2;
    assert |t| == 2 ==> (t + "AA")[0] == t[0] && (t + "AA")[1] == t[1];
    assert |t| == 3 ==> (t + "A")[0] == t[0] && (t + "A")[1] == t[1] && (t + "A")[2] == t[2];
  }

  lemma EncodeTail(x: Byte, y: Byte)
    ensures Encode([x]) == [CharOf(Sextet0(x)), CharOf(Sextet1(x, 0))]
    ensures Encode([x, y]) == [CharOf(Sextet0(x)), CharOf(Sextet1(x, y)), CharOf(Sextet2(y, 0))]
  {
    hide CharOf, Sextet0, Sextet1, Sextet2, Sextet3;
  }

  lemma TailOfTwo(t: string)
    requires |t| == 2 && InAlphabet(t[0]) && InAlphabet(t[1])
    ensures AllInAlphabet(t)
    ensures Encode(Decode(t)) == t <==> ValueOf(t[1]) % 16 == 0
  {
    var a, b := ValueOf(t[0]), ValueOf(t[1]);
    var x := Byte0(a, b);
    DecodeTail(t);
    EncodeTail(x, 0);
    TailArithmetic(a, b, 0);
    CharsAndValues(Sextet0(x), t[0]);
    CharsAndValues(Sextet1(x, 0), t[1]);
    SameChars(t, CharOf(Sextet0(x)), CharOf(Sextet1(x, 0)), 'A');
    hide Encode, Decode, CharOf, ValueOf, AllInAlphabet, InAlphabet, Sextet0, Sextet1, Sextet2, Byte0, Byte1;
  }

  lemma TailOfThree(t: string)
    requires |t| == 3 && InAlphabet(t[0]) && InAlphabet(t[1]) && InAlphabet(t[2])
    ensures AllInAlphabet(t)
    ensures Encode(Decode(t)) == t <==> ValueOf(t[2]) % 4 == 0
  {
    var a, b, c := ValueOf(t[0]), ValueOf(t[1]), ValueOf(t[2]);
    var x, y := Byte0(a, b), Byte1(b, c);
    DecodeTail(t);
    EncodeTail(x, y);
    TailArithmetic(a, b, c);
    CharsAndValues(Sextet0(x), t[0]);
    CharsAndValues(Sextet1(x, y), t[1]);
    CharsAndValues(Sextet2(y, 0), t[2]);
    SameChars(t, CharOf(Sextet0(x)), CharOf(Sextet1(x, y)), CharOf(Sextet2(y, 0)));
    hide Encode, Decode, CharOf, ValueOf, AllInAlphabet, InAlphabet, Sextet0, Sextet1, Sextet2, Byte0, Byte1;
  }

  lemma SameChars(t: string, c0: char, c1: char, c2: char)
    ensures |t| == 2 ==> (t == [c0, c1] <==> t[0] == c0 && t[1] == c1)
    ensures |t| == 3 ==> (t == [c0, c1, c2] <==> t[0] == c0 && t[1] == c1 && t[2] == c2)
  {
  }

  /** A complete group always comes back, so only the rest decides. */
  lemma FullGroupBack(t: string)
    requires |t| >= 4 && AllInAlphabet(t)
    ensures Encode(Decode(t)) == t <==> Encode(Decode(t[4..])) == t[4..]
  {
    hide CharOf, ValueOf, InAlphabet, Sextet0, Sextet1, Sextet2, Sextet3, Byte0, Byte1, Byte2;
    var group := DecodeGroup(t[..4]);
    assert Decode(t) == group + Decode(t[4..]);
    assert EncodeGroup(group[0], group[1], group[2]) == t[..4] by {
      hide Encode, Decode;
      var a, b, c, d := ValueOf(t[0]), ValueOf(t[1]), ValueOf(t[2]), ValueOf(t[3]);
      assert group == [Byte0(a, b), Byte1(b, c), Byte2(c, d)];
      SextetArithmetic(a, b, c, d);
      CharsAndValues(0, t[0]);
      CharsAndValues(0, t[1]);
      CharsAndValues(0, t[2]);
      CharsAndValues(0, t[3]);
    }
    hide EncodeGroup, DecodeGroup, Encode, Decode;
    GroupThenRest(t, group, Decode(t[4..]));
  }

  lemma GroupThenRest(t: string, group: seq<Byte>, rest: seq<Byte>)
    requires |t| >= 4 && |group| == 3 && EncodeGroup(group[0], group[1], group[2]) == t[..4]
    ensures Encode(group + rest) == t <==> Encode(rest) == t[4..]
  {
    FirstGroup(group + rest);
    assert (group + rest)[3..] == rest && t == t[..4] + t[4..];
    assert Encode(group + rest) == Encode(group + rest)[..4] + Encode(group + rest)[4..];
    hide Encode, EncodeGroup;
  }

  lemma SpareBitsOfRest(t: string)
    requires |t| >= 4 && AllInAlphabet(t) && |t| % 4 != 1
    ensures |t[4..]| % 4 == |t| % 4 && SpareBits(t) == SpareBits(t[4..])
  {
    hide InAlphabet, ValueOf;
  }

  /** Encoding undoes decoding exactly when the spare bits at the end are zero. */
  lemma {:induction false} EncodeDecode(t: string)
    requires AllInAlphabet(t) && |t| % 4 != 1
    ensures Encode(Decode(t)) == t <==> SpareBits(t) == 0
  {
    hide InAlphabet, EncodeGroup, DecodeGroup, ValueOf;
    if |t| == 2 {
      TailOfTwo(t);
    } else if |t| == 3 {
      TailOfThree(t);
    } else if |t| >= 4 {
      SpareBitsOfRest(t);
      EncodeDecode(t[4..]);
      FullGroupBack(t);
      hide Encode, Decode, SpareBits;
    }
  }

  lemma TokenShape(token: string)
    requires |token| == TOKEN_LENGTH && AllInAlphabet(token)
    ensures |Decode(token)| == MATERIAL_LENGTH
    ensures TOKEN_LENGTH % 4 == 3 && SpareBits(token) == ValueOf(token[TOKEN_LENGTH - 1]) % 4
  {
    DecodeLength(token);
    hide Decode, InAlphabet, ValueOf;
  }

  /** A token is accepted exactly when it has 43 characters of the alphabet and its two spare bits are zero. */
  lemma AcceptedExactly(token: string)
    ensures DecodeToken(token).Some?
       <==> |token| == TOKEN_LENGTH && AllInAlphabet(token) && ValueOf(token[TOKEN_LENGTH - 1]) % 4 == 0
  {
    hide Encode, Decode, AllInAlphabet, InAlphabet, ValueOf, SpareBits;
    if |token| == TOKEN_LENGTH && AllInAlphabet(token) {
      TokenShape(token);
      EncodeDecode(token);
    }
  }

  /** Accepted tokens and 32-byte material are in bijection. */
  lemma TokensAreMaterial(token: string, raw: seq<Byte>)
    ensures DecodeToken(token) == Some(raw) ==> |raw| == MATERIAL_LENGTH && token == Encode(raw)
    ensures |raw| == MATERIAL_LENGTH && token == Encode(raw) ==> DecodeToken(token) == Some(raw)
  {
    EncodeShape(raw);
    DecodeEncode(raw);
    if |token| == TOKEN_LENGTH && AllInAlphabet(token) {
      DecodeLength(token);
    }
    hide Encode, Decode, InAlphabet;
  }

  /** No two accepted tokens stand for the same material. */
  lemma TokensDiffer(a: string, b: string)
    requires DecodeToken(a).Some? && DecodeToken(a) == DecodeToken(b)
    ensures a == b
  {
    TokensAreMaterial(a, DecodeToken(a).value);
    TokensAreMaterial(b, DecodeToken(a).value);
  }

  /** Three bytes and four sextets are one number in two bases, most significant digit first. */
  lemma GroupIsNumber(x: Byte, y: Byte, z: Byte)
    ensures 0x4_0000 * Sextet0(x) + 0x1000 * Sextet1(x, y) + 0x40 * Sextet2(y, z) + Sextet3(z) == 0x1_0000 * x + 0x100 * y + z
  {
  }

  /** The test vectors of section 10 of RFC 4648 without padding, and the two characters of the URL-safe alphabet. */
  lemma Vectors()
    ensures Encode([0x66]) == "Zg" && Encode([0x66, 0x6F]) == "Zm8" && Encode([0x66, 0x6F, 0x6F]) == "Zm9v"
    ensures Encode([0x66, 0x6F, 0x6F, 0x62, 0x61, 0x72]) == "Zm9vYmFy"
    ensures Encode([0xFB, 0xFF]) == "-_8" && Encode([0, 0x10, 0x83]) == "ABCD"
  {
    assert EncodeGroup(0x66, 0, 0) == "ZgAA" && EncodeGroup(0x66, 0x6F, 0) == "Zm8A" && EncodeGroup(0x66, 0x6F, 0x6F) == "Zm9v";
    assert EncodeGroup(0x62, 0x61, 0x72) == "YmFy" && EncodeGroup(0xFB, 0xFF, 0) == "-_8A" && EncodeGroup(0, 0x10, 0x83) == "ABCD";
    hide EncodeGroup;
    var six: seq<Byte> := [0x66, 0x6F, 0x6F, 0x62, 0x61, 0x72];
    assert six[3..] == [0x62, 0x61, 0x72] && [0x62, 0x61, 0x72][3..] == [] && Encode([]) == "";
    assert Encode([0x62, 0x61, 0x72]) == "YmFy" + "";
    assert [0x66, 0x6F, 0x6F][3..] == [] && [0, 0x10, 0x83][3..] == [];
  }
}
