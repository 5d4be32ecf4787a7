/** The base64 encoding of section 4 of RFC 4648, with padding. */
module Base64 {
  import opened Tables

  type Byte = x: int | 0 <= x < 256
  type Sextet = x: int | 0 <= x < 64

  const PAD := '='

  /** The alphabet: upper case, lower case, digits, plus and slash. */
  function Symbol(v: Sextet): char
  {
    if v < 26 then 'A' + v as char
    else if v < 52 then 'a' + (v - 26) as char
    else if v < 62 then '0' + (v - 52) as char
    else if v == 62 then '+'
    else '/'
  }

  function ValueOf(c: char): Option<Sextet>
  {
    if 'A' <= c <= 'Z' then Some(c as int - 'A' as int)
    else if 'a' <= c <= 'z' then Some(c as int - 'a' as int + 26)
    else if '0' <= c <= '9' then Some(c as int - '0' as int + 52)
    else if c == '+' then Some(62)
    else if c == '/' then Some(63)
    else None
  }

  function EncodeThree(a: Byte, b: Byte, c: Byte): string
  {
    [Symbol(a / 4), Symbol(a % 4 * 16 + b / 16), Symbol(b % 16 * 4 + c / 64), Symbol(c % 64)]
  }

  function EncodeTail(tail: seq<Byte>): string
    requires |tail| < 3
  {
    if tail == [] then ""
    else if |tail| == 1 then [Symbol(tail[0] / 4), Symbol(tail[0] % 4 * 16), PAD, PAD]
    else [Symbol(tail[0] / 4), Symbol(tail[0] % 4 * 16 + tail[1] / 16), Symbol(tail[1] % 16 * 4), PAD]
  }

  function Encode(bytes: seq<Byte>): string
  {
    if |bytes| < 3 then EncodeTail(bytes)
    else EncodeThree(bytes[0], bytes[1], bytes[2]) + Encode(bytes[3..])
  }

  /** One final group; bits below the padding are ignored. */
  function DecodeLast(s: string): Option<seq<Byte>>
    requires |s| == 4
  {
    var w, x, y, z := ValueOf(s[0]), ValueOf(s[1]), ValueOf(s[2]), ValueOf(s[3]);
    if w.None? || x.None? then None
    else if s[2] == PAD && s[3] == PAD then Some([w.value * 4 + x.value / 16])
    else if y.None? then None
    else if s[3] == PAD then Some([w.value * 4 + x.value / 16, x.value % 16 * 16 + y.value / 4])
    else if z.None? then None
    else Some([w.value * 4 + x.value / 16, x.value % 16 * 16 + y.value / 4, y.value % 4 * 64 + z.value])
  }

  /** Padding is allowed in the final group only. */
  function Decode(s: string): Option<seq<Byte>>
  {
    if s == "" then Some([])
    else if |s| < 4 then None
    else if |s| == 4 then DecodeLast(s)
    else if PAD in s[..4] then None
    else
      var first, rest := DecodeLast(s[..4]), Decode(s[4..]);
      if first.None? || rest.None? then None else Some(first.value + rest.value)
  }

  /** The alphabet of table 1 of RFC 4648, in ASCII. */
  lemma AlphabetIsStandard(v: Sextet)
    ensures Symbol(v) as int ==
              if v <= 25 then 65 + v else if v <= 51 then 71 + v else if v <= 61 then v - 4
              else if v == 62 then 43 else 47
  {
  }

  /** Bytes from four base-64 digits, and the digits back from the bytes. */
  lemma BytesOfDigits(w: Sextet, x: Sextet, y: Sextet, z: Sextet)
    ensures var n := w * 262144 + x * 4096 + y * 64 + z;
      n / 65536 == w * 4 + x / 16 && n / 256 % 256 == x % 16 * 16 + y / 4 && n % 256 == y % 4 * 64 + z
  {
    var n := w * 262144 + x * 4096 + y * 64 + z;
    assert n / 256 == w * 1024 + x * 16 + y / 4;
  }

  lemma DigitsOfBytes(w: Sextet, x: Sextet, y: Sextet, z: Sextet)
    ensures var a, b, c := w * 4 + x / 16, x % 16 * 16 + y / 4, y % 4 * 64 + z;
      && 0 <= a < 256 && 0 <= b < 256 && 0 <= c < 256
      && a / 4 == w && a % 4 * 16 + b / 16 == x && b % 16 * 4 + c / 64 == y && c % 64 == z
  {
  }

  /** A group of bytes and its symbols are the same number, read in base 256 and in base 64: three
      bytes exactly, two with two and one with four zero bits added, and padding in their place. */
  lemma ThreeBytesAreFourSymbols(w: Sextet, x: Sextet, y: Sextet, z: Sextet, rest: seq<Byte>)
    ensures var n := w * 262144 + x * 4096 + y * 64 + z;
      && 0 <= n < 16777216
      && Encode([n / 65536, n / 256 % 256, n % 256] + rest)
           == [Symbol(w), Symbol(x), Symbol(y), Symbol(z)] + Encode(rest)
  {
    hide Symbol;
    BytesOfDigits(w, x, y, z);
    DigitsOfBytes(w, x, y, z);
    EncodeGroup(w * 4 + x / 16, x % 16 * 16 + y / 4, y % 4 * 64 + z, rest);
  }

  lemma EncodeGroup(a: Byte, b: Byte, c: Byte, rest: seq<Byte>)
    ensures Encode([a, b, c] + rest) == EncodeThree(a, b, c) + Encode(rest)
  {
    hide EncodeThree;
    assert ([a, b, c] + rest)[3..] == rest;
  }

  lemma LastBytes(w: Sextet, x: Sextet, y: Sextet)
    ensures y % 4 == 0 ==>
              var n := (w * 4096 + x * 64 + y) / 4;
              Encode([n / 256, n % 256]) == [Symbol(w), Symbol(x), Symbol(y), '=']
    ensures x % 16 == 0 ==> Encode([(w * 64 + x) / 16]) == [Symbol(w), Symbol(x), '=', '=']
    ensures Encode([]) == ""
  {
    hide Symbol;
    if y % 4 == 0 {
      TwoBytes(w, x, y);
      DigitsOfBytes(w, x, y, 0);
      assert Encode([w * 4 + x / 16, x % 16 * 16 + y / 4]) == [Symbol(w), Symbol(x), Symbol(y), '='];
    }
    if x % 16 == 0 {
      DigitsOfBytes(w, x, 0, 0);
      assert (w * 64 + x) / 16 == w * 4 + x / 16;
      assert Encode([w * 4 + x / 16]) == [Symbol(w), Symbol(x), '=', '='];
    }
  }

  lemma TwoBytes(w: Sextet, x: Sextet, y: Sextet)
    requires y % 4 == 0
    ensures var n := (w * 4096 + x * 64 + y) / 4; n / 256 == w * 4 + x / 16 && n % 256 == x % 16 * 16 + y / 4
  {
    assert (w * 4096 + x * 64 + y) / 4 == w * 1024 + x * 16 + y / 4;
  }

  lemma SymbolsAreDistinct(v: Sextet)
    ensures ValueOf(Symbol(v)) == Some(v) && Symbol(v) != PAD && ValueOf(PAD).None?
  {
  }

  lemma ThreeRoundTrip(a: Byte, b: Byte, c: Byte)
    ensures DecodeLast(EncodeThree(a, b, c)) == Some([a, b, c])
    ensures PAD !in EncodeThree(a, b, c) && |EncodeThree(a, b, c)| == 4
  {
    hide Symbol, ValueOf;
    SymbolsAreDistinct(a / 4);
    SymbolsAreDistinct(a % 4 * 16 + b / 16);
    SymbolsAreDistinct(b % 16 * 4 + c / 64);
    SymbolsAreDistinct(c % 64);
  }

  lemma TailRoundTrip(tail: seq<Byte>)
    requires |tail| < 3
    ensures Decode(EncodeTail(tail)) == Some(tail)
  {
    hide Symbol, ValueOf;
    if |tail| == 1 {
      assert tail == [tail[0]];
      SymbolsAreDistinct(tail[0] / 4);
      SymbolsAreDistinct(tail[0] % 4 * 16);
    } else if |tail| == 2 {
      assert tail == [tail[0], tail[1]];
      SymbolsAreDistinct(tail[0] / 4);
      SymbolsAreDistinct(tail[0] % 4 * 16 + tail[1] / 16);
      SymbolsAreDistinct(tail[1] % 16 * 4);
    }
  }

  /** Decoding gives back every encoded byte string. */
  lemma {:induction false} RoundTrip(bytes: seq<Byte>)
    ensures Decode(Encode(bytes)) == Some(bytes)
  {
    hide Symbol, ValueOf, DecodeLast, EncodeTail, EncodeThree;
    if |bytes| < 3 {
      TailRoundTrip(bytes);
    } else {
      var a, b, c, rest := bytes[0], bytes[1], bytes[2], bytes[3..];
      RoundTrip(rest);
      ThreeRoundTrip(a, b, c);
      var group := EncodeThree(a, b, c);
      assert bytes == [a, b, c] + rest;
      var text := Encode(rest);
      EncodedLength(rest);
      assert Encode(bytes) == group + text;
      assert (group + text)[..4] == group && (group + text)[4..] == text;
      assert PAD !in (group + text)[..4];
      if rest == [] {
        assert group + text == group;
        assert bytes == [a, b, c];
      } else {
        assert Decode(group + text) == Some([a, b, c] + rest);
      }
    }
  }

  lemma EncodedLength(bytes: seq<Byte>)
    ensures |Encode(bytes)| == 0 <==> bytes == []
  {
  }

  /** The bits of the final group that decoding ignores. */
  function IgnoredBits(s: string): nat
  {
    if |s| < 4 then 0
    else if |s| > 4 then IgnoredBits(s[4..])
    else
      var x, y := ValueOf(s[1]), ValueOf(s[2]);
      if s[2] == PAD && s[3] == PAD && x.Some? then x.value % 16
      else if s[3] == PAD && y.Some? then y.value % 4
      else 0
  }

  lemma SymbolOfValue(c: char)
    ensures ValueOf(c).Some? ==> Symbol(ValueOf(c).value) == c && c != PAD
  {
  }

  lemma LastGroupIsUnique(s: string)
    requires |s| == 4 && DecodeLast(s).Some?
    ensures Encode(DecodeLast(s).value) == s <==> IgnoredBits(s) == 0
    ensures PAD !in s ==> |DecodeLast(s).value| == 3
  {
    hide Symbol, ValueOf;
    var bytes := DecodeLast(s).value;
    assert s == [s[0], s[1], s[2], s[3]];
    SymbolOfValue(s[0]);
    SymbolOfValue(s[1]);
    SymbolOfValue(s[2]);
    SymbolOfValue(s[3]);
    SymbolsAreDistinct(0);
    if |bytes| == 1 {
      SymbolsAreDistinct(bytes[0] % 4 * 16);
    } else if |bytes| == 2 {
      SymbolsAreDistinct(bytes[1] % 16 * 4);
    } else {
      assert bytes[3..] == [];
    }
  }

  /** A text that decodes is the encoding of its bytes exactly when no ignored bit is set. */
  lemma {:induction false} EncodingIsUnique(s: string)
    requires Decode(s).Some?
    ensures Encode(Decode(s).value) == s <==> IgnoredBits(s) == 0
  {
    hide Symbol, ValueOf, DecodeLast, EncodeTail, EncodeThree;
    if s == "" {
      EncodedLength([]);
    } else if |s| == 4 {
      LastGroupIsUnique(s);
    } else {
      var group, rest := s[..4], s[4..];
      EncodingIsUnique(rest);
      LastGroupIsUnique(group);
      FullGroup(group);
      var bytes, more := DecodeLast(group).value, Decode(rest).value;
      assert (bytes + more)[3..] == more;
      assert s == group + rest;
      assert Encode(bytes + more) == group + Encode(more);
    }
  }

  lemma FullGroup(s: string)
    requires |s| == 4 && DecodeLast(s).Some? && PAD !in s
    ensures var b := DecodeLast(s).value; |b| == 3 && EncodeThree(b[0], b[1], b[2]) == s
  {
    LastGroupIsUnique(s);
    hide Symbol, ValueOf, DecodeLast, EncodeThree, EncodeTail;
    assert s[2] in s && s[3] in s;
    var b := DecodeLast(s).value;
    assert b[3..] == [];
    EncodedLength([]);
    assert Encode(b) == EncodeThree(b[0], b[1], b[2]) + [];
  }
}
