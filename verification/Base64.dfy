/**
Standard padded base64 (section 4 of RFC 4648) as Go's base64.StdEncoding reads and writes it:
carriage returns and line feeds in the input are skipped, and the unused low bits of a padded
group are not checked.
*/
module Base64 {
  import opened Wrappers

  type Sextet = v: int | 0 <= v < 64

  datatype Symbol = Digit(v: Sextet) | Pad | LineBreak | Bad

  function Classify(c: char): Symbol {
    if 'A' <= c <= 'Z' then Digit(c as int - 'A' as int)
    else if 'a' <= c <= 'z' then Digit(c as int - 'a' as int + 26)
    else if '0' <= c <= '9' then Digit(c as int - '0' as int + 52)
    else if c == '+' then Digit(62)
    else if c == '/' then Digit(63)
    else if c == '=' then Pad
    else if c == '\r' || c == '\n' then LineBreak
    else Bad
  }

  function DigitChar(v: Sextet): (c: char)
    ensures Classify(c) == Digit(v)
  {
    if v < 26 then (v + 'A' as int) as char
    else if v < 52 then (v - 26 + 'a' as int) as char
    else if v < 62 then (v - 52 + '0' as int) as char
    else if v == 62 then '+' else '/'
  }

  function SymbolChar(s: Symbol): (c: char)
    requires s.Digit? || s.Pad?
    ensures Classify(c) == s
  {
    if s.Pad? then '=' else DigitChar(s.v)
  }

  predicate Writable(syms: seq<Symbol>) {
    forall i :: 0 <= i < |syms| ==> syms[i].Digit? || syms[i].Pad?
  }

  /** The groups of four symbols for `b`, the last one padded. */
  function EncodeSymbols(b: Bytes): (syms: seq<Symbol>)
    ensures Writable(syms)
  {
    if |b| == 0 then []
    else if |b| == 1 then [Digit(b[0] / 4), Digit(b[0] % 4 * 16), Pad, Pad]
    else if |b| == 2 then [Digit(b[0] / 4), Digit(b[0] % 4 * 16 + b[1] / 16), Digit(b[1] % 16 * 4), Pad]
    else
      [Digit(b[0] / 4), Digit(b[0] % 4 * 16 + b[1] / 16), Digit(b[1] % 16 * 4 + b[2] / 64), Digit(b[2] % 64)]
      + EncodeSymbols(b[3..])
  }

  function Write(syms: seq<Symbol>): string
    requires Writable(syms)
  {
    if syms == [] then "" else [SymbolChar(syms[0])] + Write(syms[1..])
  }

  /** EncodeToString. */
  function Encode(b: Bytes): string {
    Write(EncodeSymbols(b))
  }

  /** The symbols of a text without its line breaks. */
  function Read(s: string): seq<Symbol> {
    if s == "" then []
    else if Classify(s[0]).LineBreak? then Read(s[1..])
    else [Classify(s[0])] + Read(s[1..])
  }

  /** The decoder, one group of four symbols at a time. */
  function DecodeSymbols(s: seq<Symbol>): Option<Bytes> {
    if s == [] then Some([])
    else if |s| < 4 || !s[0].Digit? || !s[1].Digit? then None
    else
      var b0: Byte := s[0].v * 4 + s[1].v / 16;
      match (s[2], s[3])
      case (Pad, Pad) => if |s| == 4 then Some([b0]) else None
      case (Digit(v2), Pad) => if |s| == 4 then Some([b0, s[1].v % 16 * 16 + v2 / 4]) else None
      case (Digit(v2), Digit(v3)) =>
        var rest :- DecodeSymbols(s[4..]);
        Some([b0, s[1].v % 16 * 16 + v2 / 4, v2 % 4 * 64 + v3] + rest)
      case _ => None
  }

  /** DecodeString; None stands for a CorruptInputError. */
  function Decode(s: string): Option<Bytes> {
    DecodeSymbols(Read(s))
  }

  lemma {:induction false} ReadWrite(syms: seq<Symbol>)
    requires Writable(syms)
    ensures Read(Write(syms)) == syms && '\n' !in Write(syms)
  {
    if syms != [] {
      ReadWrite(syms[1..]);
      assert Write(syms)[1..] == Write(syms[1..]);
    }
  }

  /** Three bytes cut into four sextets and put together again. */
  lemma SextetsOf(a: Byte, b: Byte, c: Byte)
    ensures a / 4 * 4 + (a % 4 * 16 + b / 16) / 16 == a
    ensures a / 4 * 4 + (a % 4 * 16) / 16 == a
    ensures (a % 4 * 16 + b / 16) % 16 * 16 + (b % 16 * 4 + c / 64) / 4 == b
    ensures (a % 4 * 16 + b / 16) % 16 * 16 + (b % 16 * 4) / 4 == b
    ensures (b % 16 * 4 + c / 64) % 4 * 64 + c % 64 == c
  {
  }

  predicate RoundTrips(b: Bytes) {
    DecodeSymbols(EncodeSymbols(b)) == Some(b)
  }

  lemma DecodeFullGroup(v0: Sextet, v1: Sextet, v2: Sextet, v3: Sextet, rest: seq<Symbol>, tail: Bytes)
    requires DecodeSymbols(rest) == Some(tail)
    ensures DecodeSymbols([Digit(v0), Digit(v1), Digit(v2), Digit(v3)] + rest)
         == Some([v0 * 4 + v1 / 16, v1 % 16 * 16 + v2 / 4, v2 % 4 * 64 + v3] + tail)
  {
    assert ([Digit(v0), Digit(v1), Digit(v2), Digit(v3)] + rest)[4..] == rest;
  }

  lemma DecodePaddedGroups(v0: Sextet, v1: Sextet, v2: Sextet)
    ensures DecodeSymbols([Digit(v0), Digit(v1), Pad, Pad]) == Some([v0 * 4 + v1 / 16])
    ensures DecodeSymbols([Digit(v0), Digit(v1), Digit(v2), Pad]) == Some([v0 * 4 + v1 / 16, v1 % 16 * 16 + v2 / 4])
  {
  }

  lemma DecodeOne(x: Byte)
    ensures RoundTrips([x])
  {
    var v0: Sextet, v1: Sextet := x / 4, x % 4 * 16;
    assert EncodeSymbols([x]) == [Digit(v0), Digit(v1), Pad, Pad];
    DecodePaddedGroups(v0, v1, 0);
    assert v0 * 4 + v1 / 16 == x by { SextetsOf(x, 0, 0); }
  }

  lemma DecodeTwo(x: Byte, y: Byte)
    ensures RoundTrips([x, y])
  {
    var v0: Sextet, v1: Sextet, v2: Sextet := x / 4, x % 4 * 16 + y / 16, y % 16 * 4;
    assert EncodeSymbols([x, y]) == [Digit(v0), Digit(v1), Digit(v2), Pad];
    DecodePaddedGroups(v0, v1, v2);
    assert v0 * 4 + v1 / 16 == x && v1 % 16 * 16 + v2 / 4 == y by { SextetsOf(x, y, 0); }
  }

  lemma DecodeMore(x: Byte, y: Byte, z: Byte, rest: Bytes)
    requires RoundTrips(rest)
    ensures RoundTrips([x, y, z] + rest)
  {
    var v0: Sextet, v1: Sextet, v2: Sextet, v3: Sextet := x / 4, x % 4 * 16 + y / 16, y % 16 * 4 + z / 64, z % 64;
    assert ([x, y, z] + rest)[3..] == rest;
    assert EncodeSymbols([x, y, z] + rest) == [Digit(v0), Digit(v1), Digit(v2), Digit(v3)] + EncodeSymbols(rest);
    DecodeFullGroup(v0, v1, v2, v3, EncodeSymbols(rest), rest);
    assert v0 * 4 + v1 / 16 == x && v1 % 16 * 16 + v2 / 4 == y && v2 % 4 * 64 + v3 == z by { SextetsOf(x, y, z); }
  }

  lemma {:induction false} DecodeSymbolsEncode(b: Bytes)
    ensures RoundTrips(b)
  {
    if |b| == 0 {
    } else if |b| == 1 {
      DecodeOne(b[0]);
      assert b == [b[0]];
    } else if |b| == 2 {
      DecodeTwo(b[0], b[1]);
      assert b == [b[0], b[1]];
    } else {
      DecodeSymbolsEncode(b[3..]);
      DecodeMore(b[0], b[1], b[2], b[3..]);
      assert b == [b[0], b[1], b[2]] + b[3..];
    }
  }

  /** Decoding inverts encoding. */
  lemma DecodeEncode(b: Bytes)
    ensures Decode(Encode(b)) == Some(b)
  {
    ReadWrite(EncodeSymbols(b));
    DecodeSymbolsEncode(b);
  }

  // ---------------------------------------------------------------- which texts are accepted

  /** The digits of `v` and `w` agree in the bits that `pads` padding symbols leave in use. */
  predicate SameUsedBits(v: Sextet, w: Sextet, pads: int) {
    if pads == 2 then v / 16 == w / 16 else if pads == 1 then v / 4 == w / 4 else v == w
  }

  /** The same symbol at `i`, up to the unused low bits of the digit before the padding. */
  predicate SameAt(x: seq<Symbol>, y: seq<Symbol>, i: nat)
    requires i < |x| == |y|
  {
    || x[i] == y[i]
    || (x[i].Digit? && y[i].Digit? && i + 1 < |y| && y[i + 1].Pad? && SameUsedBits(x[i].v, y[i].v, |y| - 1 - i))
  }

  predicate SameDigits(x: seq<Symbol>, y: seq<Symbol>) {
    |x| == |y| && forall i :: 0 <= i < |x| ==> SameAt(x, y, i)
  }

  lemma SextetsBack(v0: Sextet, v1: Sextet, v2: Sextet, v3: Sextet)
    ensures var a, b, c := v0 * 4 + v1 / 16, v1 % 16 * 16 + v2 / 4, v2 % 4 * 64 + v3;
      && a / 4 == v0 && a % 4 * 16 + b / 16 == v1 && b % 16 * 4 + c / 64 == v2 && c % 64 == v3
      && (a % 4 * 16) / 16 == v1 / 16 && (b % 16 * 4) / 4 == v2 / 4
  {
  }

  lemma SameOne(x: seq<Symbol>, w0: Sextet, w1: Sextet)
    ensures SameDigits(x, [Digit(w0), Digit(w1), Pad, Pad]) <==>
      |x| == 4 && x[0] == Digit(w0) && x[1].Digit? && x[1].v / 16 == w1 / 16 && x[2] == Pad && x[3] == Pad
  {
    var y := [Digit(w0), Digit(w1), Pad, Pad];
    if |x| == 4 && x[0] == Digit(w0) && x[1].Digit? && x[1].v / 16 == w1 / 16 && x[2] == Pad && x[3] == Pad {
      assert SameUsedBits(x[1].v, y[1].v, 2) && y[2].Pad?;
    }
    if SameDigits(x, y) {
      assert SameAt(x, y, 0) && SameAt(x, y, 1) && SameAt(x, y, 2) && SameAt(x, y, 3);
    }
  }

  lemma SameTwo(x: seq<Symbol>, w0: Sextet, w1: Sextet, w2: Sextet)
    ensures SameDigits(x, [Digit(w0), Digit(w1), Digit(w2), Pad]) <==>
      |x| == 4 && x[0] == Digit(w0) && x[1] == Digit(w1) && x[2].Digit? && x[2].v / 4 == w2 / 4 && x[3] == Pad
  {
    var y := [Digit(w0), Digit(w1), Digit(w2), Pad];
    if |x| == 4 && x[0] == Digit(w0) && x[1] == Digit(w1) && x[2].Digit? && x[2].v / 4 == w2 / 4 && x[3] == Pad {
      assert SameUsedBits(x[2].v, y[2].v, 1) && y[3].Pad?;
    }
    if SameDigits(x, y) {
      assert SameAt(x, y, 0) && SameAt(x, y, 1) && SameAt(x, y, 2) && SameAt(x, y, 3);
    }
  }

  lemma OneGroup(v0: Sextet, v1: Sextet, a: Byte)
    ensures v0 * 4 + v1 / 16 == a <==> v0 == a / 4 && v1 / 16 == (a % 4 * 16) / 16
  {
    SextetsBack(v0, v1, 0, 0);
    SextetsOf(a, 0, 0);
  }

  lemma TwoGroup(v0: Sextet, v1: Sextet, v2: Sextet, a: Byte, b: Byte)
    ensures (v0 * 4 + v1 / 16 == a && v1 % 16 * 16 + v2 / 4 == b)
       <==> (v0 == a / 4 && v1 == a % 4 * 16 + b / 16 && v2 / 4 == (b % 16 * 4) / 4)
  {
    SextetsBack(v0, v1, v2, 0);
    SextetsOf(a, b, 0);
  }

  lemma OneByteExactly(x: seq<Symbol>, a: Byte)
    ensures DecodeSymbols(x) == Some([a]) <==> SameDigits(x, EncodeSymbols([a]))
  {
    SameOne(x, a / 4, a % 4 * 16);
    if |x| == 4 && x[0].Digit? && x[1].Digit? && x[2] == Pad && x[3] == Pad {
      OneGroup(x[0].v, x[1].v, a);
    }
  }

  lemma TwoBytesExactly(x: seq<Symbol>, a: Byte, b: Byte)
    ensures DecodeSymbols(x) == Some([a, b]) <==> SameDigits(x, EncodeSymbols([a, b]))
  {
    SameTwo(x, a / 4, a % 4 * 16 + b / 16, b % 16 * 4);
    if |x| == 4 && x[0].Digit? && x[1].Digit? && x[2].Digit? && x[3] == Pad {
      TwoGroup(x[0].v, x[1].v, x[2].v, a, b);
    }
  }

  lemma FirstIsADigit(b: Bytes)
    requires b != []
    ensures EncodeSymbols(b) != [] && EncodeSymbols(b)[0].Digit?
  {
  }

  lemma SameMore(x: seq<Symbol>, g: seq<Symbol>, b: Bytes)
    requires |g| == 4 && forall i :: 0 <= i < 4 ==> g[i].Digit?
    ensures SameDigits(x, g + EncodeSymbols(b)) <==> |x| >= 4 && x[..4] == g && SameDigits(x[4..], EncodeSymbols(b))
  {
    var rest := EncodeSymbols(b);
    var y := g + rest;
    if b != [] { FirstIsADigit(b); }
    if SameDigits(x, y) {
      forall i | 0 <= i < 4 ensures x[i] == g[i] {
        assert SameAt(x, y, i) && y[i] == g[i] && (i + 1 < |y| ==> y[i + 1].Digit?);
      }
      forall i | 0 <= i < |rest| ensures SameAt(x[4..], rest, i) {
        assert SameAt(x, y, i + 4) && y[i + 4] == rest[i];
        if i + 1 < |rest| { assert y[i + 5] == rest[i + 1]; }
      }
    }
    if |x| >= 4 && x[..4] == g && SameDigits(x[4..], rest) {
      forall i | 0 <= i < |x| ensures SameAt(x, y, i) {
        if i < 4 {
          assert x[i] == x[..4][i];
        } else {
          assert SameAt(x[4..], rest, i - 4) && y[i] == rest[i - 4];
          if i + 1 < |y| { assert y[i + 1] == rest[i - 3]; }
        }
      }
    }
  }

  lemma GroupExactly(x: seq<Symbol>, a: Byte, b: Byte, c: Byte)
    requires |x| >= 4 && x[0].Digit? && x[1].Digit? && x[2].Digit? && x[3].Digit?
    ensures (x[0].v * 4 + x[1].v / 16 == a && x[1].v % 16 * 16 + x[2].v / 4 == b && x[2].v % 4 * 64 + x[3].v == c)
       <==> x[..4] == [Digit(a / 4), Digit(a % 4 * 16 + b / 16), Digit(b % 16 * 4 + c / 64), Digit(c % 64)]
  {
    SextetsBack(x[0].v, x[1].v, x[2].v, x[3].v);
    SextetsOf(a, b, c);
    assert x[..4] == [x[0], x[1], x[2], x[3]];
  }

  lemma {:induction false} DecodeSymbolsExactly(x: seq<Symbol>, b: Bytes)
    ensures DecodeSymbols(x) == Some(b) <==> SameDigits(x, EncodeSymbols(b))
    decreases |b|
  {
    if |b| == 1 {
      assert b == [b[0]];
      OneByteExactly(x, b[0]);
    } else if |b| == 2 {
      assert b == [b[0], b[1]];
      TwoBytesExactly(x, b[0], b[1]);
    } else if |b| > 2 {
      ManyBytesExactly(x, b);
    }
  }

  lemma {:induction false} ManyBytesExactly(x: seq<Symbol>, b: Bytes)
    requires |b| > 2
    ensures DecodeSymbols(x) == Some(b) <==> SameDigits(x, EncodeSymbols(b))
    decreases |b|, 0
  {
    var g := [Digit(b[0] / 4), Digit(b[0] % 4 * 16 + b[1] / 16), Digit(b[1] % 16 * 4 + b[2] / 64), Digit(b[2] % 64)];
    SameMore(x, g, b[3..]);
    if |x| >= 4 && x[0].Digit? && x[1].Digit? && x[2].Digit? && x[3].Digit? {
      DecodeSymbolsExactly(x[4..], b[3..]);
      GroupExactly(x, b[0], b[1], b[2]);
      assert b == [b[0], b[1], b[2]] + b[3..];
    } else if |x| >= 4 {
      assert x[..4] != g by { assert x[0] == x[..4][0] && x[1] == x[..4][1] && x[2] == x[..4][2] && x[3] == x[..4][3]; }
    }
  }

  /**
  Exactly the texts that decode to `b`: without their line breaks they are the encoding of `b`, up to
  the low bits of the last digit that the padding leaves unused.
  */
  lemma DecodeExactly(s: string, b: Bytes)
    ensures Decode(s) == Some(b) <==> SameDigits(Read(s), EncodeSymbols(b))
  {
    DecodeSymbolsExactly(Read(s), b);
  }

  /** The alphabet of section 4 of RFC 4648. */
  lemma Alphabet(v: Sextet)
    ensures v < 26 ==> DigitChar(v) == ('A' as int + v) as char
    ensures 26 <= v < 52 ==> DigitChar(v) == ('a' as int + v - 26) as char
    ensures 52 <= v < 62 ==> DigitChar(v) == ('0' as int + v - 52) as char
    ensures v == 62 ==> DigitChar(v) == '+'
    ensures v == 63 ==> DigitChar(v) == '/'
  {
  }

  /** No other character is a digit, only '=' pads, and only line breaks are skipped. */
  lemma OnlyAlphabet(c: char)
    ensures Classify(c).Digit? ==> c == DigitChar(Classify(c).v)
    ensures Classify(c).Pad? <==> c == '='
    ensures Classify(c).LineBreak? <==> c == '\r' || c == '\n'
  {
  }

  lemma WriteFour(a: Symbol, b: Symbol, c: Symbol, d: Symbol)
    requires (a.Digit? || a.Pad?) && (b.Digit? || b.Pad?) && (c.Digit? || c.Pad?) && (d.Digit? || d.Pad?)
    ensures Write([a, b, c, d]) == [SymbolChar(a), SymbolChar(b), SymbolChar(c), SymbolChar(d)]
  {
    assert [a, b, c, d][1..] == [b, c, d] && [b, c, d][1..] == [c, d] && [c, d][1..] == [d] && [d][1..] == [];
    assert Write([d]) == [SymbolChar(d)];
    assert Write([c, d]) == [SymbolChar(c), SymbolChar(d)];
    assert Write([b, c, d]) == [SymbolChar(b), SymbolChar(c), SymbolChar(d)];
  }

  /** The first test vectors of section 10 of RFC 4648, for "f", "fo" and "foo". */
  lemma TestVectors()
    ensures Encode([102]) == "Zg==" && Encode([102, 111]) == "Zm8=" && Encode([102, 111, 111]) == "Zm9v"
  {
    WriteFour(Digit(25), Digit(32), Pad, Pad);
    WriteFour(Digit(25), Digit(38), Digit(60), Pad);
    WriteFour(Digit(25), Digit(38), Digit(61), Digit(47));
    assert [102, 111, 111][3..] == [];
    assert EncodeSymbols([102, 111, 111]) == [Digit(25), Digit(38), Digit(61), Digit(47)];
  }
}

/** Base16 in lower case (section 8 of RFC 4648), as hex.EncodeToString writes it. */
module Hex {
  import opened Wrappers

  predicate IsHexDigit(c: char) {
    '0' <= c <= '9' || 'a' <= c <= 'f'
  }

  function NibbleChar(n: nat): (c: char)
    requires n < 16
    ensures IsHexDigit(c) && CharNibble(c) == n
  {
    if n < 10 then (n + '0' as int) as char else (n - 10 + 'a' as int) as char
  }

  function CharNibble(c: char): (n: nat)
    requires IsHexDigit(c)
    ensures n < 16
  {
    if c <= '9' then c as int - '0' as int else c as int - 'a' as int + 10
  }

  function Encode(b: Bytes): string {
    if b == [] then "" else [NibbleChar(b[0] / 16), NibbleChar(b[0] % 16)] + Encode(b[1..])
  }

  function Decode(s: string): Option<Bytes> {
    if s == "" then Some([])
    else if |s| < 2 || !IsHexDigit(s[0]) || !IsHexDigit(s[1]) then None
    else
      var rest :- Decode(s[2..]);
      var first: Byte := CharNibble(s[0]) * 16 + CharNibble(s[1]);
      Some([first] + rest)
  }

  /** The digits of section 8 of RFC 4648, high nibble first. */
  lemma OneByte(b: Byte)
    ensures Encode([b]) == [Digit(b / 16), Digit(b % 16)]
  {
    assert [b][1..] == [];
  }

  /** The hex digit of a nibble, by its position in "0123456789abcdef". */
  function Digit(n: nat): char
    requires n < 16
  {
    "0123456789abcdef"[n]
  }

  lemma {:induction false} DecodeEncode(b: Bytes)
    ensures Decode(Encode(b)) == Some(b)
    ensures |Encode(b)| == 2 * |b| && forall i :: 0 <= i < |Encode(b)| ==> IsHexDigit(Encode(b)[i])
  {
    if b != [] {
      DecodeEncode(b[1..]);
      assert Encode(b)[2..] == Encode(b[1..]);
      assert b == [b[0]] + b[1..];
    }
  }
}

/** Keys of the configuration: base64 in the file, hex in the request (encodeBase64ToHex in config.go). */
module Keys {
  import opened Wrappers
  import Base64
  import Hex

  const KEY_SIZE := 32

  datatype KeyError = InvalidBase64 | WrongLength

  /** encodeBase64ToHex. */
  function ToHex(key: string): Result<string, KeyError> {
    var decoded := Base64.Decode(key);
    if decoded.None? then Err(InvalidBase64)
    else if |decoded.value| != KEY_SIZE then Err(WrongLength)
    else Ok(Hex.Encode(decoded.value))
  }

  /** 64 lower-case hex digits. */
  predicate IsHexKey(h: string) {
    |h| == 64 && forall i :: 0 <= i < |h| ==> Hex.IsHexDigit(h[i])
  }

  /** The key survives: base64 to hex and back to bytes is the key itself, for every 32-byte key. */
  lemma KeyRoundTrip(key: Bytes)
    requires |key| == 32
    ensures ToHex(Base64.Encode(key)).Ok?
    ensures Hex.Decode(ToHex(Base64.Encode(key)).value) == Some(key)
  {
    Base64.DecodeEncode(key);
    Hex.DecodeEncode(key);
  }

  /** A text is accepted exactly when it is base64 for 32 bytes, and what comes out is those bytes in hex. */
  lemma ToHexExactly(text: string, h: string)
    ensures ToHex(text) == Ok(h) <==>
      IsHexKey(h) && Base64.Decode(text).Some? && Hex.Decode(h) == Base64.Decode(text)
  {
    if Base64.Decode(text).Some? {
      Hex.DecodeEncode(Base64.Decode(text).value);
      if Hex.Decode(h) == Base64.Decode(text) && IsHexKey(h) {
        HexInjective(h);
      }
    }
  }

  lemma NibbleInverse(c: char, d: char)
    requires Hex.IsHexDigit(c) && Hex.IsHexDigit(d)
    ensures var n := Hex.CharNibble(c) * 16 + Hex.CharNibble(d);
      0 <= n < 256 && Hex.NibbleChar(n / 16) == c && Hex.NibbleChar(n % 16) == d
  {
    var n := Hex.CharNibble(c) * 16 + Hex.CharNibble(d);
    assert n / 16 == Hex.CharNibble(c) && n % 16 == Hex.CharNibble(d);
  }

  /** A lower-case hex text is the encoding of what it decodes to. */
  lemma {:induction false} HexInjective(h: string)
    requires Hex.Decode(h).Some? && forall i :: 0 <= i < |h| ==> Hex.IsHexDigit(h[i])
    ensures Hex.Encode(Hex.Decode(h).value) == h && |h| == 2 * |Hex.Decode(h).value|
  {
    if h != "" {
      var rest := Hex.Decode(h[2..]).value;
      var first := Hex.CharNibble(h[0]) * 16 + Hex.CharNibble(h[1]);
      NibbleInverse(h[0], h[1]);
      HexInjective(h[2..]);
      assert Hex.Decode(h) == Some([first] + rest);
      assert ([first] + rest)[1..] == rest;
      assert h == [h[0], h[1]] + h[2..];
    }
  }

  lemma HexKeyIsLineSafe(h: string)
    requires IsHexKey(h)
    ensures '\n' !in h
  {
  }
}
