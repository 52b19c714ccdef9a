/** Unpadded base64 with the standard alphabet (sections 3.2 and 4 of RFC 4648), as
    base64.RawStdEncoding has it: line breaks are skipped when decoding. */
module Base64 {
  import opened Strings

  type Byte = b: nat | b < 256
  type Sextet = x: nat | x < 64

  function CharOf(x: Sextet): char {
    if x < 26 then 'A' + x as char
    else if x < 52 then 'a' + (x - 26) as char
    else if x < 62 then '0' + (x - 52) as char
    else if x == 62 then '+' else '/'
  }

  function IndexOf(c: char): Option<Sextet> {
    if 'A' <= c <= 'Z' then Some((c - 'A') as int)
    else if 'a' <= c <= 'z' then Some((c - 'a') as int + 26)
    else if '0' <= c <= '9' then Some((c - '0') as int + 52)
    else if c == '+' then Some(62)
    else if c == '/' then Some(63)
    else None
  }

  lemma IndexOfChar(x: Sextet)
    ensures IndexOf(CharOf(x)) == Some(x) && CharOf(x) != '\n' && CharOf(x) != '\r'
  {
  }

  // The sextets of three bytes a, b, c ...
  function S0(a: Byte): Sextet { a / 4 }
  function S1(a: Byte, b: Byte): Sextet { a % 4 * 16 + b / 16 }
  function S2(b: Byte, c: Byte): Sextet { b % 16 * 4 + c / 64 }
  function S3(c: Byte): Sextet { c % 64 }

  // The last sextet when the input ends after one or two bytes.
  function T1(a: Byte): Sextet { a % 4 * 16 }
  function T2(b: Byte): Sextet { b % 16 * 4 }

  // ... and the bytes of four sextets x, y, z, w.
  function B0(x: Sextet, y: Sextet): Byte { x * 4 + y / 16 }
  function B1(y: Sextet, z: Sextet): Byte { y % 16 * 16 + z / 4 }
  function B2(z: Sextet, w: Sextet): Byte { z % 4 * 64 + w }

  lemma SplitSixteen(h: nat, l: nat)
    requires l < 16
    ensures (h * 16 + l) / 16 == h && (h * 16 + l) % 16 == l
  {
  }

  lemma SplitFour(h: nat, l: nat)
    requires l < 4
    ensures (h * 4 + l) / 4 == h && (h * 4 + l) % 4 == l
  {
  }

  lemma RegroupFirst(a: Byte, b: Byte)
    ensures B0(S0(a), T1(a)) == a && B0(S0(a), S1(a, b)) == a
  {
    SplitSixteen(a % 4, 0);
    SplitSixteen(a % 4, b / 16);
  }

  lemma RegroupSecond(a: Byte, b: Byte, c: Byte)
    ensures B1(S1(a, b), T2(b)) == b && B1(S1(a, b), S2(b, c)) == b
  {
    SplitSixteen(a % 4, b / 16);
    SplitFour(b % 16, 0);
    SplitFour(b % 16, c / 64);
  }

  lemma Regroup(a: Byte, b: Byte, c: Byte)
    ensures B0(S0(a), T1(a)) == a && B1(S1(a, b), T2(b)) == b
    ensures B0(S0(a), S1(a, b)) == a && B1(S1(a, b), S2(b, c)) == b && B2(S2(b, c), S3(c)) == c
  {
    RegroupFirst(a, b);
    RegroupSecond(a, b, c);
    SplitFour(b % 16, c / 64);
  }

  function Encode(b: seq<Byte>): string {
    if b == [] then []
    else if |b| == 1 then [CharOf(S0(b[0])), CharOf(T1(b[0]))]
    else if |b| == 2 then [CharOf(S0(b[0])), CharOf(S1(b[0], b[1])), CharOf(T2(b[1]))]
    else
      [CharOf(S0(b[0])), CharOf(S1(b[0], b[1])), CharOf(S2(b[1], b[2])), CharOf(S3(b[2]))] + Encode(b[3..])
  }

  function StripLineBreaks(s: string): string {
    if s == [] then []
    else (if s[0] == '\n' || s[0] == '\r' then [] else [s[0]]) + StripLineBreaks(s[1..])
  }

  function DecodeSextets(s: string): Option<seq<Byte>> {
    if s == [] then Some([])
    else if |s| == 1 then None
    else
      match (IndexOf(s[0]), IndexOf(s[1]))
      case (Some(x), Some(y)) =>
        if |s| == 2 then Some([B0(x, y)])
        else (
          match IndexOf(s[2])
          case None => None
          case Some(z) =>
            if |s| == 3 then Some([B0(x, y), B1(y, z)])
            else (
              match (IndexOf(s[3]), DecodeSextets(s[4..]))
              case (Some(w), Some(rest)) => Some([B0(x, y), B1(y, z), B2(z, w)] + rest)
              case _ => None
            )
        )
      case _ => None
  }

  function Decode(s: string): Option<seq<Byte>> {
    DecodeSextets(StripLineBreaks(s))
  }

  lemma {:induction false} NothingToStrip(s: string)
    requires '\n' !in s && '\r' !in s
    ensures StripLineBreaks(s) == s
  {
    if s != [] {
      NothingToStrip(s[1..]);
    }
  }

  lemma {:induction false} EncodedHasNoLineBreaks(b: seq<Byte>)
    ensures '\n' !in Encode(b) && '\r' !in Encode(b)
  {
    if |b| > 2 {
      EncodedHasNoLineBreaks(b[3..]);
    }
  }

  lemma DecodeFour(x: Sextet, y: Sextet, z: Sextet, w: Sextet, s: string)
    ensures DecodeSextets([CharOf(x), CharOf(y), CharOf(z), CharOf(w)] + s) ==
            match DecodeSextets(s)
            case None => None
            case Some(rest) => Some([B0(x, y), B1(y, z), B2(z, w)] + rest)
  {
    var t := [CharOf(x), CharOf(y), CharOf(z), CharOf(w)] + s;
    IndexOfChar(x); IndexOfChar(y); IndexOfChar(z); IndexOfChar(w);
    assert t[0] == CharOf(x) && t[1] == CharOf(y) && t[2] == CharOf(z) && t[3] == CharOf(w) && t[4..] == s;
  }

  lemma DecodeShort(x: Sextet, y: Sextet, z: Sextet)
    ensures DecodeSextets([CharOf(x), CharOf(y)]) == Some([B0(x, y)])
    ensures DecodeSextets([CharOf(x), CharOf(y), CharOf(z)]) == Some([B0(x, y), B1(y, z)])
  {
    IndexOfChar(x); IndexOfChar(y); IndexOfChar(z);
  }

  lemma OneByte(a: Byte)
    ensures DecodeSextets(Encode([a])) == Some([a])
  {
    Regroup(a, a, a);
    DecodeShort(S0(a), T1(a), T1(a));
    assert Encode([a]) == [CharOf(S0(a)), CharOf(T1(a))];
  }

  lemma TwoBytes(a: Byte, b: Byte)
    ensures DecodeSextets(Encode([a, b])) == Some([a, b])
  {
    Regroup(a, b, b);
    DecodeShort(S0(a), S1(a, b), T2(b));
    assert Encode([a, b]) == [CharOf(S0(a)), CharOf(S1(a, b)), CharOf(T2(b))];
  }

  lemma ThreeBytes(a: Byte, b: Byte, c: Byte, rest: seq<Byte>)
    requires DecodeSextets(Encode(rest)) == Some(rest)
    ensures DecodeSextets(Encode([a, b, c] + rest)) == Some([a, b, c] + rest)
  {
    var t := [a, b, c] + rest;
    assert t[3..] == rest;
    Regroup(a, b, c);
    DecodeFour(S0(a), S1(a, b), S2(b, c), S3(c), Encode(rest));
    assert Encode(t) == [CharOf(S0(a)), CharOf(S1(a, b)), CharOf(S2(b, c)), CharOf(S3(c))] + Encode(rest);
  }

  lemma {:induction false} SextetsRoundTrip(b: seq<Byte>)
    ensures DecodeSextets(Encode(b)) == Some(b)
  {
    if |b| == 1 {
      OneByte(b[0]);
      assert b == [b[0]];
    } else if |b| == 2 {
      TwoBytes(b[0], b[1]);
      assert b == [b[0], b[1]];
    } else if |b| > 2 {
      SextetsRoundTrip(b[3..]);
      ThreeBytes(b[0], b[1], b[2], b[3..]);
      assert b == [b[0], b[1], b[2]] + b[3..];
    }
  }

  /** Decoding undoes encoding for every byte string. */
  lemma RoundTrip(b: seq<Byte>)
    ensures Decode(Encode(b)) == Some(b)
  {
    EncodedHasNoLineBreaks(b);
    NothingToStrip(Encode(b));
    SextetsRoundTrip(b);
  }

  // ---------------------------------------------------------------- the alphabet and the bits

  /** The letters are those of table 1 of RFC 4648: three runs of consecutive letters, then `+` and `/`. */
  lemma Alphabet(x: Sextet)
    ensures CharOf(0) == 'A' && CharOf(25) == 'Z' && CharOf(26) == 'a' && CharOf(51) == 'z'
    ensures CharOf(52) == '0' && CharOf(61) == '9' && CharOf(62) == '+' && CharOf(63) == '/'
    ensures x < 61 && x != 25 && x != 51 ==> CharOf(x + 1) as int == CharOf(x) as int + 1
  {
  }

  // The text starts with the letters of these numbers.
  predicate Letters(text: string, xs: seq<nat>) {
    |xs| <= |text| && forall i :: 0 <= i < |xs| ==> xs[i] < 64 && text[i] == CharOf(xs[i])
  }

  // The number that these digits are to that base, most significant first.
  function Number(base: nat, digits: seq<nat>): nat {
    if digits == [] then 0 else Number(base, digits[..|digits| - 1]) * base + digits[|digits| - 1]
  }

  lemma NumberOf(base: nat, x: nat, y: nat, z: nat, w: nat)
    ensures Number(base, [x]) == x
    ensures Number(base, [x, y]) == x * base + y
    ensures Number(base, [x, y, z]) == (x * base + y) * base + z
    ensures Number(base, [x, y, z, w]) == ((x * base + y) * base + z) * base + w
  {
    assert [x][..0] == [] && [x, y][..1] == [x] && [x, y, z][..2] == [x, y] && [x, y, z, w][..3] == [x, y, z];
    assert Number(base, []) == 0;
  }

  lemma Bits(a: Byte, b: Byte, c: Byte)
    ensures ((S0(a) as int * 64 + S1(a, b) as int) * 64 + S2(b, c) as int) * 64 + S3(c) as int == (a as int * 256 + b as int) * 256 + c as int
    ensures (S0(a) as int * 64 + S1(a, b) as int) * 64 + T2(b) as int == (a as int * 256 + b as int) * 4
    ensures S0(a) as int * 64 + T1(a) as int == a as int * 16
  {
  }

  lemma ThreeBits(a: Byte, b: Byte, c: Byte)
    ensures Number(64, [S0(a), S1(a, b), S2(b, c), S3(c)]) == Number(256, [a, b, c])
  {
    Bits(a, b, c);
    NumberOf(64, S0(a), S1(a, b), S2(b, c), S3(c));
    NumberOf(256, a, b, c, 0);
  }

  lemma FewBits(a: Byte, b: Byte)
    ensures Number(64, [S0(a), S1(a, b), T2(b)]) == Number(256, [a, b]) * 4
    ensures Number(64, [S0(a), T1(a)]) == Number(256, [a]) * 16
  {
    Bits(a, b, 0);
    NumberOf(64, S0(a), S1(a, b), T2(b), 0);
    NumberOf(64, S0(a), T1(a), 0, 0);
    NumberOf(256, a, b, 0, 0);
  }

  /** Three bytes go out as the four digits to base 64 of the number they are to base 256; two or one byte
      at the end likewise, after two or four zero bits. */
  lemma EncodesBits(b: seq<Byte>) returns (xs: seq<nat>)
    requires b != []
    ensures Letters(Encode(b), xs)
    ensures |b| > 2 ==> |xs| == 4 && Encode(b)[4..] == Encode(b[3..]) && Number(64, xs) == Number(256, b[..3])
    ensures |b| == 2 ==> |xs| == |Encode(b)| == 3 && Number(64, xs) == Number(256, b) * 4
    ensures |b| == 1 ==> |xs| == |Encode(b)| == 2 && Number(64, xs) == Number(256, b) * 16
  {
    if |b| == 1 {
      xs := [S0(b[0]), T1(b[0])];
      assert b == [b[0]];
      FewBits(b[0], 0);
    } else if |b| == 2 {
      xs := [S0(b[0]), S1(b[0], b[1]), T2(b[1])];
      assert b == [b[0], b[1]];
      FewBits(b[0], b[1]);
    } else {
      xs := [S0(b[0]), S1(b[0], b[1]), S2(b[1], b[2]), S3(b[2])];
      assert b[..3] == [b[0], b[1], b[2]];
      ThreeBits(b[0], b[1], b[2]);
    }
  }
}
