/** The standard base64 alphabet without padding (sections 3.2 and 4 of RFC 4648), and the strict
    decoder, which refuses non-zero trailing bits (section 3.5) but skips line breaks. */
module Base64 {
  import opened Wrappers

  type byte = x: int | 0 <= x < 256

  type sextet = x: int | 0 <= x < 64

  function Symbol(v: sextet): char {
    if v < 26 then ('A' as int + v) as char
    else if v < 52 then ('a' as int + (v - 26)) as char
    else if v < 62 then ('0' as int + (v - 52)) as char
    else if v == 62 then '+' else '/'
  }

  function SextetOf(c: char): Option<sextet> {
    if 'A' <= c <= 'Z' then Some(c as int - 'A' as int)
    else if 'a' <= c <= 'z' then Some(c as int - 'a' as int + 26)
    else if '0' <= c <= '9' then Some(c as int - '0' as int + 52)
    else if c == '+' then Some(62)
    else if c == '/' then Some(63)
    else None
  }

  lemma SymbolInverts(v: sextet)
    ensures SextetOf(Symbol(v)) == Some(v)
  {
  }

  lemma SextetInverts(c: char)
    ensures SextetOf(c).Some? ==> Symbol(SextetOf(c).value) == c
  {
  }

  function Encode(bytes: seq<byte>): string {
    if |bytes| == 0 then ""
    else if |bytes| == 1 then
      [Symbol(bytes[0] / 4), Symbol(bytes[0] % 4 * 16)]
    else if |bytes| == 2 then
      [Symbol(bytes[0] / 4), Symbol(bytes[0] % 4 * 16 + bytes[1] / 16), Symbol(bytes[1] % 16 * 4)]
    else
      [Symbol(bytes[0] / 4), Symbol(bytes[0] % 4 * 16 + bytes[1] / 16),
       Symbol(bytes[1] % 16 * 4 + bytes[2] / 64), Symbol(bytes[2] % 64)] + Encode(bytes[3..])
  }

  function StripLineBreaks(s: string): string {
    if s == "" then ""
    else if s[0] == '\n' || s[0] == '\r' then StripLineBreaks(s[1..])
    else [s[0]] + StripLineBreaks(s[1..])
  }

  /** The first byte of a group, from its first two sextets, and so on. */
  function First(a: sextet, b: sextet): byte { a * 4 + b / 16 }

  function Second(b: sextet, c: sextet): byte { b % 16 * 16 + c / 4 }

  function Third(c: sextet, d: sextet): byte { c % 4 * 64 + d }

  function DecodeSymbols(s: string): Option<seq<byte>> {
    if |s| == 0 then Some([])
    else if |s| == 1 then None
    else
      match (SextetOf(s[0]), SextetOf(s[1]))
      case (Some(a), Some(b)) =>
        if |s| == 2 then
          if b % 16 == 0 then Some([First(a, b)]) else None
        else (
          match SextetOf(s[2])
          case None => None
          case Some(c) =>
            if |s| == 3 then
              if c % 4 == 0 then Some([First(a, b), Second(b, c)]) else None
            else (
              match (SextetOf(s[3]), DecodeSymbols(s[4..]))
              case (Some(d), Some(rest)) => Some([First(a, b), Second(b, c), Third(c, d)] + rest)
              case _ => None
            )
        )
      case _ => None
  }

  function DecodeStrict(s: string): Option<seq<byte>> {
    DecodeSymbols(StripLineBreaks(s))
  }

  /** Three bytes into four sextets and back, and the other way round. */
  lemma PackUnpack(x: byte, y: byte, z: byte)
    ensures First(x / 4, x % 4 * 16 + y / 16) == x
    ensures Second(x % 4 * 16 + y / 16, y % 16 * 4 + z / 64) == y
    ensures Third(y % 16 * 4 + z / 64, z % 64) == z
  {
  }

  lemma UnpackPack(a: sextet, b: sextet, c: sextet, d: sextet)
    ensures First(a, b) / 4 == a
    ensures First(a, b) % 4 * 16 + Second(b, c) / 16 == b
    ensures Second(b, c) % 16 * 4 + Third(c, d) / 64 == c
    ensures Third(c, d) % 64 == d
    ensures b % 16 == 0 ==> First(a, b) % 4 * 16 == b
    ensures c % 4 == 0 ==> Second(b, c) % 16 * 4 == c
  {
  }

  // One group at a time, with the sextets given by name so that no division is left to unfold.

  lemma EncodeThree(x: byte, y: byte, z: byte, rest: seq<byte>)
    ensures Encode([x, y, z] + rest)
            == [Symbol(x / 4), Symbol(x % 4 * 16 + y / 16), Symbol(y % 16 * 4 + z / 64), Symbol(z % 64)] + Encode(rest)
  {
    assert ([x, y, z] + rest)[3..] == rest;
  }

  lemma EncodeShort(x: byte, y: byte)
    ensures Encode([x]) == [Symbol(x / 4), Symbol(x % 4 * 16)]
    ensures Encode([x, y]) == [Symbol(x / 4), Symbol(x % 4 * 16 + y / 16), Symbol(y % 16 * 4)]
  {
  }

  lemma DecodeGroup(a: sextet, b: sextet, c: sextet, d: sextet, tail: string)
    requires DecodeSymbols(tail).Some?
    ensures DecodeSymbols([Symbol(a), Symbol(b), Symbol(c), Symbol(d)] + tail)
            == Some([First(a, b), Second(b, c), Third(c, d)] + DecodeSymbols(tail).value)
  {
    SymbolInverts(a);
    SymbolInverts(b);
    SymbolInverts(c);
    SymbolInverts(d);
    assert ([Symbol(a), Symbol(b), Symbol(c), Symbol(d)] + tail)[4..] == tail;
  }

  lemma DecodeShort(a: sextet, b: sextet, c: sextet)
    ensures b % 16 == 0 ==> DecodeSymbols([Symbol(a), Symbol(b)]) == Some([First(a, b)])
    ensures c % 4 == 0 ==> DecodeSymbols([Symbol(a), Symbol(b), Symbol(c)]) == Some([First(a, b), Second(b, c)])
  {
    SymbolInverts(a);
    SymbolInverts(b);
    SymbolInverts(c);
  }

  lemma GroupComesBack(x: byte, y: byte, z: byte, rest: seq<byte>)
    requires DecodeSymbols(Encode(rest)) == Some(rest)
    ensures DecodeSymbols(Encode([x, y, z] + rest)) == Some([x, y, z] + rest)
  {
    PackUnpack(x, y, z);
    EncodeThree(x, y, z, rest);
    DecodeGroup(x / 4, x % 4 * 16 + y / 16, y % 16 * 4 + z / 64, z % 64, Encode(rest));
  }

  lemma PackShort(x: byte, y: byte)
    ensures First(x / 4, x % 4 * 16) == x && x % 4 * 16 % 16 == 0
    ensures First(x / 4, x % 4 * 16 + y / 16) == x
    ensures Second(x % 4 * 16 + y / 16, y % 16 * 4) == y && y % 16 * 4 % 4 == 0
  {
  }

  lemma OneComesBack(x: byte)
    ensures DecodeSymbols(Encode([x])) == Some([x])
  {
    PackShort(x, 0);
    EncodeShort(x, 0);
    DecodeShort(x / 4, x % 4 * 16, 0);
  }

  lemma TwoComeBack(x: byte, y: byte)
    ensures DecodeSymbols(Encode([x, y])) == Some([x, y])
  {
    PackShort(x, y);
    EncodeShort(x, y);
    DecodeShort(x / 4, x % 4 * 16 + y / 16, y % 16 * 4);
  }

  lemma {:induction false} SymbolsComeBack(bytes: seq<byte>)
    ensures DecodeSymbols(Encode(bytes)) == Some(bytes)
  {
    if |bytes| == 1 {
      OneComesBack(bytes[0]);
      assert bytes == [bytes[0]];
    } else if |bytes| == 2 {
      TwoComeBack(bytes[0], bytes[1]);
      assert bytes == [bytes[0], bytes[1]];
    } else if |bytes| > 2 {
      var rest := bytes[3..];
      SymbolsComeBack(rest);
      GroupComesBack(bytes[0], bytes[1], bytes[2], rest);
      assert bytes == [bytes[0], bytes[1], bytes[2]] + rest;
    }
  }

  lemma {:induction false} EncodedIsSymbols(bytes: seq<byte>)
    ensures forall c :: c in Encode(bytes) ==> SextetOf(c).Some?
  {
    forall v: sextet ensures SextetOf(Symbol(v)).Some? {
      SymbolInverts(v);
    }
    if |bytes| >= 3 {
      EncodedIsSymbols(bytes[3..]);
    }
  }

  lemma EncodeGroup(a: sextet, b: sextet, c: sextet, d: sextet, rest: seq<byte>)
    ensures Encode([First(a, b), Second(b, c), Third(c, d)] + rest)
            == [Symbol(a), Symbol(b), Symbol(c), Symbol(d)] + Encode(rest)
  {
    UnpackPack(a, b, c, d);
    EncodeThree(First(a, b), Second(b, c), Third(c, d), rest);
  }

  lemma EncodeTail(a: sextet, b: sextet, c: sextet)
    ensures b % 16 == 0 ==> Encode([First(a, b)]) == [Symbol(a), Symbol(b)]
    ensures c % 4 == 0 ==> Encode([First(a, b), Second(b, c)]) == [Symbol(a), Symbol(b), Symbol(c)]
  {
    UnpackPack(a, b, c, 0);
    EncodeShort(First(a, b), Second(b, c));
    assert First(a, b) / 4 == a;
    assert First(a, b) % 4 * 16 + Second(b, c) / 16 == b;
  }

  lemma FirstFour(s: string)
    requires |s| > 3
    ensures s == [s[0], s[1], s[2], s[3]] + s[4..]
  {
  }

  lemma DecoderReadsFour(s: string)
    requires |s| > 3 && DecodeSymbols(s).Some?
    ensures SextetOf(s[0]).Some? && SextetOf(s[1]).Some? && SextetOf(s[2]).Some? && SextetOf(s[3]).Some?
    ensures DecodeSymbols(s[4..]).Some?
  {
  }

  /** What the decoder made of a string of at least four symbols. */
  lemma DecodedGroup(s: string) returns (a: sextet, b: sextet, c: sextet, d: sextet)
    requires |s| > 3 && DecodeSymbols(s).Some?
    ensures s == [Symbol(a), Symbol(b), Symbol(c), Symbol(d)] + s[4..]
    ensures DecodeSymbols(s[4..]).Some?
    ensures DecodeSymbols(s).value == [First(a, b), Second(b, c), Third(c, d)] + DecodeSymbols(s[4..]).value
  {
    DecoderReadsFour(s);
    SextetInverts(s[0]);
    SextetInverts(s[1]);
    SextetInverts(s[2]);
    SextetInverts(s[3]);
    a, b, c, d := SextetOf(s[0]).value, SextetOf(s[1]).value, SextetOf(s[2]).value, SextetOf(s[3]).value;
    FirstFour(s);
    DecodeGroup(a, b, c, d, s[4..]);
  }

  lemma ShortDecoded(s: string)
    requires |s| < 4 && DecodeSymbols(s).Some?
    ensures Encode(DecodeSymbols(s).value) == s
  {
    if |s| > 0 {
      SextetInverts(s[0]);
      SextetInverts(s[1]);
      var a, b := SextetOf(s[0]).value, SextetOf(s[1]).value;
      if |s| == 2 {
        EncodeTail(a, b, 0);
      } else {
        SextetInverts(s[2]);
        EncodeTail(a, b, SextetOf(s[2]).value);
      }
    }
  }

  lemma {:induction false} BytesComeBack(s: string)
    requires DecodeSymbols(s).Some?
    ensures Encode(DecodeSymbols(s).value) == s
  {
    if |s| < 4 {
      ShortDecoded(s);
    } else {
      var a, b, c, d := DecodedGroup(s);
      BytesComeBack(s[4..]);
      EncodeGroup(a, b, c, d, DecodeSymbols(s[4..]).value);
    }
  }

  lemma {:induction false} NothingToStrip(s: string)
    requires forall c :: c in s ==> SextetOf(c).Some?
    ensures StripLineBreaks(s) == s
  {
    if s != "" {
      assert s[0] in s && [s[0]] + s[1..] == s;
      NothingToStrip(s[1..]);
    }
  }

  /** Decoding succeeds on exactly one spelling of each byte sequence, up to line breaks. */
  lemma DecodeInvertsEncode(s: string, bytes: seq<byte>)
    ensures DecodeStrict(s) == Some(bytes) <==> StripLineBreaks(s) == Encode(bytes)
    ensures DecodeStrict(Encode(bytes)) == Some(bytes)
  {
    SymbolsComeBack(bytes);
    EncodedIsSymbols(bytes);
    NothingToStrip(Encode(bytes));
    if DecodeStrict(s) == Some(bytes) {
      BytesComeBack(StripLineBreaks(s));
    }
  }

  /** The alphabet of Table 1 of RFC 4648: upper case, lower case, digits, plus and slash, in order. */
  lemma AlphabetInOrder()
    ensures Symbol(0) == 'A' && Symbol(26) == 'a' && Symbol(52) == '0' && Symbol(62) == '+' && Symbol(63) == '/'
    ensures forall v: sextet, w: sextet :: w == v + 1 && w !in {26, 52, 62, 63} ==>
              Symbol(w) as int == Symbol(v) as int + 1
  {
  }

  /** What a symbol stands for. */
  function Bits(c: char): int {
    if SextetOf(c).Some? then SextetOf(c).value else 0
  }

  /** The symbols read as digits of base 64 are the bytes read as digits of base 256, most significant
      first; a short last group is filled up with zero bits and nothing marks its end. */
  lemma EncodesBigEndian(x: byte, y: byte, z: byte, rest: seq<byte>)
    ensures var e := Encode([x]); |e| == 2 && Bits(e[0]) * 64 + Bits(e[1]) == 16 * Value([x])
    ensures var e := Encode([x, y]); |e| == 3 && (Bits(e[0]) * 64 + Bits(e[1])) * 64 + Bits(e[2]) == 4 * Value([x, y])
    ensures var e := Encode([x, y, z] + rest);
            && |e| > 3 && e[4..] == Encode(rest)
            && ((Bits(e[0]) * 64 + Bits(e[1])) * 64 + Bits(e[2])) * 64 + Bits(e[3]) == Value([x, y, z])
  {
    forall v: sextet ensures Bits(Symbol(v)) == v {
      SymbolInverts(v);
    }
    EncodeShort(x, y);
    EncodeThree(x, y, z, rest);
    assert Value([x]) == x && [x, y][..1] == [x] && [x, y, z][..2] == [x, y];
  }

  /** The bytes read as a number, most significant first. */
  function Value(bytes: seq<byte>): int {
    if bytes == [] then 0 else Value(bytes[..|bytes| - 1]) * 256 + (bytes[|bytes| - 1] as int)
  }

  lemma {:induction false} StripAppend(s: string, t: string)
    ensures StripLineBreaks(s + t) == StripLineBreaks(s) + StripLineBreaks(t)
  {
    if s == "" {
      assert s + t == t;
    } else {
      StripAppend(s[1..], t);
      assert (s + t)[1..] == s[1..] + t && (s + t)[0] == s[0];
      var first := if s[0] == '\n' || s[0] == '\r' then "" else [s[0]];
      assert StripLineBreaks(s) == first + StripLineBreaks(s[1..]);
      var rest, tail := StripLineBreaks(s[1..]), StripLineBreaks(t);
      assert first + (rest + tail) == first + rest + tail;
    }
  }

  /** Line breaks may stand anywhere; every other character counts. */
  lemma LineBreaksAreSkipped(s: string, c: char, t: string)
    requires c == '\n' || c == '\r'
    ensures DecodeStrict(s + [c] + t) == DecodeStrict(s + t)
  {
    StripAppend(s, t);
    StripAppend(s + [c], t);
    StripAppend(s, [c]);
    assert StripLineBreaks([c]) == "" && StripLineBreaks(s) + "" == StripLineBreaks(s);
  }

  lemma OtherCharactersCount(s: string, c: char, t: string)
    requires c != '\n' && c != '\r' && SextetOf(c).None?
    ensures DecodeStrict(s + [c] + t).None?
  {
    var whole := s + [c] + t;
    StripAppend(s + [c], t);
    StripAppend(s, [c]);
    assert StripLineBreaks([c]) == [c];
    assert c in StripLineBreaks(whole);
    forall bytes ensures DecodeStrict(whole) != Some(bytes) {
      DecodeInvertsEncode(whole, bytes);
      EncodedIsSymbols(bytes);
    }
  }
}
