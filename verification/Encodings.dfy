/** UTF-8 (RFC 3629, section 3). */
module Utf8 {
  import opened Wrappers

  predicate IsBytes(b: seq<int>) {
    forall i | 0 <= i < |b| :: 0 <= b[i] < 256
  }

  function EncodeChar(c: char): (b: seq<int>)
    ensures b != [] && IsBytes(b)
  {
    var n := c as int;
    if n < 0x80 then [n]
    else if n < 0x800 then [0xC0 + n / 64, 0x80 + n % 64]
    else if n < 0x1_0000 then [0xE0 + n / 4096, 0x80 + n / 64 % 64, 0x80 + n % 64]
    else [0xF0 + n / 262144, 0x80 + n / 4096 % 64, 0x80 + n / 64 % 64, 0x80 + n % 64]
  }

  function Encode(s: string): (b: seq<int>)
    ensures IsBytes(b)
  {
    if s == [] then [] else EncodeChar(s[0]) + Encode(s[1..])
  }

  predicate Trail(b: seq<int>, i: nat) {
    i < |b| && 0x80 <= b[i] < 0xC0
  }

  predicate Scalar(n: int, least: int) {
    least <= n < 0x11_0000 && !(0xD800 <= n < 0xE000)
  }

  /** The first character and its width; None for truncated, overlong, surrogate or out-of-range forms. */
  function DecodeFirst(b: seq<int>): (r: Option<(char, nat)>)
    requires b != [] && IsBytes(b)
    ensures r.Some? ==> 0 < r.value.1 <= |b|
  {
    if b[0] < 0x80 then Some((b[0] as char, 1))
    else if 0xC0 <= b[0] < 0xE0 && Trail(b, 1) then
      var n: int := (b[0] - 0xC0) * 64 + (b[1] - 0x80);
      if Scalar(n, 0x80) then Some((n as char, 2)) else None
    else if 0xE0 <= b[0] < 0xF0 && Trail(b, 1) && Trail(b, 2) then
      var n: int := (b[0] - 0xE0) * 4096 + (b[1] - 0x80) * 64 + (b[2] - 0x80);
      if Scalar(n, 0x800) then Some((n as char, 3)) else None
    else if 0xF0 <= b[0] < 0xF8 && Trail(b, 1) && Trail(b, 2) && Trail(b, 3) then
      var n: int := (b[0] - 0xF0) * 262144 + (b[1] - 0x80) * 4096 + (b[2] - 0x80) * 64 + (b[3] - 0x80);
      if Scalar(n, 0x1_0000) then Some((n as char, 4)) else None
    else None
  }

  function Decode(b: seq<int>): Option<string>
    requires IsBytes(b)
  {
    if b == [] then Some([])
    else
      var first := DecodeFirst(b);
      if first.None? then None
      else
        match Decode(b[first.value.1..])
        case None => None
        case Some(rest) => Some([first.value.0] + rest)
  }

  lemma DecodeTwo(n: int, rest: seq<int>)
    requires 0x80 <= n < 0x800 && IsBytes(rest)
    ensures DecodeFirst([0xC0 + n / 64, 0x80 + n % 64] + rest) == Some((n as char, 2))
  {
  }

  lemma DecodeThree(n: int, rest: seq<int>)
    requires 0x800 <= n < 0x1_0000 && !(0xD800 <= n < 0xE000) && IsBytes(rest)
    ensures DecodeFirst([0xE0 + n / 4096, 0x80 + n / 64 % 64, 0x80 + n % 64] + rest) == Some((n as char, 3))
  {
    assert n / 4096 * 4096 + n / 64 % 64 * 64 + n % 64 == n;
  }

  lemma DecodeFourParts(a: int, b: int, c: int, d: int, rest: seq<int>)
    requires 0 <= a < 8 && 0 <= b < 64 && 0 <= c < 64 && 0 <= d < 64 && IsBytes(rest)
    requires Scalar(a * 262144 + b * 4096 + c * 64 + d, 0x1_0000)
    ensures DecodeFirst([0xF0 + a, 0x80 + b, 0x80 + c, 0x80 + d] + rest) == Some(((a * 262144 + b * 4096 + c * 64 + d) as char, 4))
  {
  }

  lemma DecodeFour(n: int, rest: seq<int>)
    requires 0x1_0000 <= n < 0x11_0000 && IsBytes(rest)
    ensures DecodeFirst([0xF0 + n / 262144, 0x80 + n / 4096 % 64, 0x80 + n / 64 % 64, 0x80 + n % 64] + rest)
         == Some((n as char, 4))
  {
    hide DecodeFirst;
    assert n / 262144 * 262144 + n / 4096 % 64 * 4096 + n / 64 % 64 * 64 + n % 64 == n;
    DecodeFourParts(n / 262144, n / 4096 % 64, n / 64 % 64, n % 64, rest);
  }

  lemma DecodeEncodeChar(c: char, rest: seq<int>)
    requires IsBytes(rest)
    ensures DecodeFirst(EncodeChar(c) + rest) == Some((c, |EncodeChar(c)|))
  {
    var n := c as int;
    if n < 0x80 {
      assert ([n] + rest)[0] == n;
    } else if n < 0x800 {
      DecodeTwo(n, rest);
    } else if n < 0x1_0000 {
      DecodeThree(n, rest);
    } else {
      DecodeFour(n, rest);
    }
  }

  lemma {:induction false} DecodeEncode(s: string)
    ensures Decode(Encode(s)) == Some(s)
  {
    hide EncodeChar, DecodeFirst;
    if s != [] {
      DecodeEncodeChar(s[0], Encode(s[1..]));
      DecodeEncode(s[1..]);
      assert Encode(s)[|EncodeChar(s[0])|..] == Encode(s[1..]);
      assert s == [s[0]] + s[1..];
    }
  }

  /** One character of each width, as RFC 3629 encodes it. */
  lemma EncodesAsStandard()
    ensures EncodeChar('A') == [0x41] && EncodeChar('\U{E9}') == [0xC3, 0xA9]
    ensures EncodeChar('\U{20AC}') == [0xE2, 0x82, 0xAC] && EncodeChar('\U{1F600}') == [0xF0, 0x9F, 0x98, 0x80]
  {
  }
}

/** The URL-safe base64 alphabet without padding (RFC 4648, section 5). */
module Base64 {
  import opened Wrappers
  import opened Utf8

  function Symbol(v: int): (c: char)
    requires 0 <= v < 64
    ensures Value(c) == v
  {
    if v < 26 then ('A' as int + v) as char
    else if v < 52 then ('a' as int + v - 26) as char
    else if v < 62 then ('0' as int + v - 52) as char
    else if v == 62 then '-' else '_'
  }

  /** The value of a symbol, negative outside the alphabet. */
  function Value(c: char): (v: int)
    ensures v < 64
  {
    if 'A' <= c <= 'Z' then c as int - 'A' as int
    else if 'a' <= c <= 'z' then c as int - 'a' as int + 26
    else if '0' <= c <= '9' then c as int - '0' as int + 52
    else if c == '-' then 62
    else if c == '_' then 63
    else -1
  }

  function Encode(b: seq<int>): string
    requires IsBytes(b)
  {
    if b == [] then []
    else if |b| == 1 then [Symbol(b[0] / 4), Symbol(b[0] % 4 * 16)]
    else if |b| == 2 then [Symbol(b[0] / 4), Symbol(b[0] % 4 * 16 + b[1] / 16), Symbol(b[1] % 16 * 4)]
    else
      [Symbol(b[0] / 4), Symbol(b[0] % 4 * 16 + b[1] / 16), Symbol(b[1] % 16 * 4 + b[2] / 64), Symbol(b[2] % 64)]
      + Encode(b[3..])
  }

  /** A lone symbol cannot hold a byte, and the unused low bits of a short group must be zero. */
  function Decode(s: string): (b: Option<seq<int>>)
    ensures b.Some? ==> IsBytes(b.value)
  {
    if s == [] then Some([])
    else if |s| == 1 || Value(s[0]) < 0 || Value(s[1]) < 0 then None
    else
      var first := Value(s[0]) * 4 + Value(s[1]) / 16;
      if |s| == 2 then
        if Value(s[1]) % 16 == 0 then Some([first]) else None
      else if Value(s[2]) < 0 then None
      else
        var second := Value(s[1]) % 16 * 16 + Value(s[2]) / 4;
        if |s| == 3 then
          if Value(s[2]) % 4 == 0 then Some([first, second]) else None
        else if Value(s[3]) < 0 then None
        else
          match Decode(s[4..])
          case None => None
          case Some(rest) => Some([first, second, Value(s[2]) % 4 * 64 + Value(s[3])] + rest)
  }

  lemma Regroup(a: int, b: int, c: int)
    requires 0 <= a < 256 && 0 <= b < 256 && 0 <= c < 256
    ensures a / 4 * 4 + (a % 4 * 16 + b / 16) / 16 == a
    ensures (a % 4 * 16 + b / 16) % 16 * 16 + (b % 16 * 4 + c / 64) / 4 == b
    ensures (b % 16 * 4 + c / 64) % 4 * 64 + c % 64 == c
  {
  }

  /** The bytes of a group of four symbols. */
  function GroupBytes(w: int, x: int, y: int, z: int): seq<int> {
    [w * 4 + x / 16, x % 16 * 16 + y / 4, y % 4 * 64 + z]
  }

  lemma DecodeLong(s: string)
    requires |s| >= 4 && Value(s[0]) >= 0 && Value(s[1]) >= 0 && Value(s[2]) >= 0 && Value(s[3]) >= 0 && Decode(s[4..]).Some?
    ensures Decode(s) == Some(GroupBytes(Value(s[0]), Value(s[1]), Value(s[2]), Value(s[3])) + Decode(s[4..]).value)
  {
    hide Value;
  }

  lemma DecodeSymbols(w: char, x: char, y: char, z: char, t: string)
    requires Value(w) >= 0 && Value(x) >= 0 && Value(y) >= 0 && Value(z) >= 0 && Decode(t).Some?
    ensures Decode([w, x, y, z] + t) == Some(GroupBytes(Value(w), Value(x), Value(y), Value(z)) + Decode(t).value)
  {
    hide Value, Decode, GroupBytes;
    var s := [w, x, y, z] + t;
    assert s[4..] == t;
    DecodeLong(s);
  }

  lemma DecodeGroup(a: int, b: int, c: int, t: string)
    requires 0 <= a < 256 && 0 <= b < 256 && 0 <= c < 256
    requires Decode(t).Some?
    ensures Decode([Symbol(a / 4), Symbol(a % 4 * 16 + b / 16), Symbol(b % 16 * 4 + c / 64), Symbol(c % 64)] + t)
         == Some([a, b, c] + Decode(t).value)
  {
    hide Decode, Symbol, Value;
    Regroup(a, b, c);
    DecodeSymbols(Symbol(a / 4), Symbol(a % 4 * 16 + b / 16), Symbol(b % 16 * 4 + c / 64), Symbol(c % 64), t);
  }

  lemma DecodeOne(a: int)
    requires 0 <= a < 256
    ensures Decode([Symbol(a / 4), Symbol(a % 4 * 16)]) == Some([a])
  {
  }

  lemma DecodeTwo(a: int, b: int)
    requires 0 <= a < 256 && 0 <= b < 256
    ensures Decode([Symbol(a / 4), Symbol(a % 4 * 16 + b / 16), Symbol(b % 16 * 4)]) == Some([a, b])
  {
    Regroup(a, b, 0);
    assert b % 16 * 4 % 4 == 0;
  }

  lemma EncodeGroup(b: seq<int>)
    requires IsBytes(b) && |b| > 2
    ensures Encode(b) == [Symbol(b[0] / 4), Symbol(b[0] % 4 * 16 + b[1] / 16), Symbol(b[1] % 16 * 4 + b[2] / 64), Symbol(b[2] % 64)]
                         + Encode(b[3..])
  {
    hide Symbol, Value, Decode;
  }

  lemma {:induction false} DecodeEncode(b: seq<int>)
    requires IsBytes(b)
    ensures Decode(Encode(b)) == Some(b)
    decreases |b|
  {
    if |b| > 2 {
      hide Encode, Decode, Symbol;
      DecodeEncode(b[3..]);
      DecodeGroup(b[0], b[1], b[2], Encode(b[3..]));
      EncodeGroup(b);
      assert b == [b[0], b[1], b[2]] + b[3..];
    } else {
      DecodeShort(b);
    }
  }

  lemma EncodeOne(a: int)
    requires 0 <= a < 256
    ensures Encode([a]) == [Symbol(a / 4), Symbol(a % 4 * 16)]
  {
    hide Symbol, Value, Decode;
  }

  lemma EncodeTwo(a: int, b: int)
    requires 0 <= a < 256 && 0 <= b < 256
    ensures Encode([a, b]) == [Symbol(a / 4), Symbol(a % 4 * 16 + b / 16), Symbol(b % 16 * 4)]
  {
    hide Symbol, Value, Decode;
  }

  lemma DecodeShort(b: seq<int>)
    requires IsBytes(b) && |b| <= 2
    ensures Decode(Encode(b)) == Some(b)
  {
    if |b| == 1 {
      hide Symbol, Value, Decode, Encode;
      assert b == [b[0]];
      EncodeOne(b[0]);
      DecodeOne(b[0]);
    } else if |b| == 2 {
      hide Symbol, Value, Decode, Encode;
      assert b == [b[0], b[1]];
      EncodeTwo(b[0], b[1]);
      DecodeTwo(b[0], b[1]);
    }
  }

  /** The alphabet of the standard: letters, digits, hyphen and underscore, in this order. */
  lemma SymbolsAreStandard(v: int)
    requires 0 <= v < 64
    ensures v < 26 ==> Symbol(v) == "ABCDEFGHIJKLMNOPQRSTUVWXYZ"[v]
    ensures 26 <= v < 52 ==> Symbol(v) == "abcdefghijklmnopqrstuvwxyz"[v - 26]
    ensures 52 <= v < 62 ==> Symbol(v) == "0123456789"[v - 52]
    ensures Symbol(62) == '-' && Symbol(63) == '_'
  {
  }

  /** Read as digits to base 64, the symbols of a group are the number its bytes are to base 256, low bits zero in a short group. */
  lemma GroupsRegroupBits(a: int, b: int, c: int, rest: seq<int>)
    requires 0 <= a < 256 && 0 <= b < 256 && 0 <= c < 256 && IsBytes(rest)
    ensures var s := Encode([a, b, c] + rest);
            && |s| == 4 + |Encode(rest)| && s[4..] == Encode(rest)
            && Value(s[0]) * 262144 + Value(s[1]) * 4096 + Value(s[2]) * 64 + Value(s[3]) == a * 65536 + b * 256 + c
    ensures var s := Encode([a, b]); |s| == 3 && Value(s[0]) * 4096 + Value(s[1]) * 64 + Value(s[2]) == (a * 256 + b) * 4
    ensures var s := Encode([a]); |s| == 2 && Value(s[0]) * 64 + Value(s[1]) == a * 16
    ensures Encode([]) == []
  {
    EncodeTwo(a, b);
    EncodeOne(a);
    var all := [a, b, c] + rest;
    assert all[3..] == rest;
    EncodeGroup(all);
    hide Encode, Symbol, Value;
    SplitBits(a, b, c);
    SplitBits(a, b, 0);
    SplitBits(a, 0, 0);
    NothingEncoded();
  }

  lemma NothingEncoded()
    ensures Encode([]) == []
  {
  }

  lemma SplitBits(a: int, b: int, c: int)
    requires 0 <= a < 256 && 0 <= b < 256 && 0 <= c < 256
    ensures a / 4 * 262144 + (a % 4 * 16 + b / 16) * 4096 + (b % 16 * 4 + c / 64) * 64 + c % 64 == a * 65536 + b * 256 + c
  {
    assert a / 4 * 4 + a % 4 == a && b / 16 * 16 + b % 16 == b && c / 64 * 64 + c % 64 == c;
  }
}

/** The text form of a UUID (RFC 9562, section 4) and what the parser accepts. */
module UuidText {
  import opened Wrappers
  import opened Types
  import opened Text

  function Pow16(w: nat): nat {
    if w == 0 then 1 else 16 * Pow16(w - 1)
  }

  function PrintHex(n: nat, width: nat): (s: string)
    ensures |s| == width && forall c | c in s :: IsDigit(c, 16) && c != ':' && c != '|' && c != '-'
  {
    if width == 0 then [] else PrintHex(n / 16, width - 1) + [Digit(n % 16)]
  }

  lemma {:induction false} ParsePrintHex(n: nat, width: nat)
    requires n < Pow16(width)
    ensures ParseDigits(PrintHex(n, width), 16) == Some(n)
  {
    hide Digit, DigitValue;
    if width != 0 {
      ParsePrintHex(n / 16, width - 1);
      var s := PrintHex(n, width);
      assert s[..|s| - 1] == PrintHex(n / 16, width - 1);
    }
  }

  function Print(u: Uuid): (s: string)
    ensures |s| == 36 && ':' !in s && '|' !in s
  {
    var h := PrintHex(u, 32);
    var s := h[..8] + "-" + h[8..12] + "-" + h[12..16] + "-" + h[16..20] + "-" + h[20..];
    assert forall c | c in s :: c == '-' || c in h;
    s
  }

  function ParseSimple(s: string): Option<Uuid>
    requires |s| == 32
  {
    match ParseDigits(s, 16)
    case None => None
    case Some(n) => if n < 0x1_0000_0000_0000_0000_0000_0000_0000_0000 then Some(n) else None
  }

  function ParseHyphenated(s: string): Option<Uuid>
    requires |s| == 36
  {
    if s[8] == '-' && s[13] == '-' && s[18] == '-' && s[23] == '-'
    then ParseSimple(s[..8] + s[9..13] + s[14..18] + s[19..23] + s[24..])
    else None
  }

  /** Plain, hyphenated, braced and URN forms; letters of either case. */
  function Parse(s: string): Option<Uuid> {
    if |s| == 32 then ParseSimple(s)
    else if |s| == 36 then ParseHyphenated(s)
    else if |s| == 38 && s[0] == '{' && s[37] == '}' then ParseHyphenated(s[1..37])
    else if |s| == 45 && s[..9] == "urn:uuid:" then ParseHyphenated(s[9..])
    else None
  }

  lemma ThirtyTwoDigits()
    ensures Pow16(32) == 0x1_0000_0000_0000_0000_0000_0000_0000_0000
  {
    assert Pow16(4) == 0x1_0000;
    assert Pow16(8) == 0x1_0000_0000;
    assert Pow16(12) == 0x1_0000_0000_0000;
    assert Pow16(16) == 0x1_0000_0000_0000_0000;
    assert Pow16(20) == 0x1_0000_0000_0000_0000_0000;
    assert Pow16(24) == 0x1_0000_0000_0000_0000_0000_0000;
    assert Pow16(28) == 0x1_0000_0000_0000_0000_0000_0000_0000;
  }

  lemma ParsePrint(u: Uuid)
    ensures Parse(Print(u)) == Some(u)
  {
    hide PrintHex, ParseDigits, Pow16;
    var h := PrintHex(u, 32);
    var s := Print(u);
    ThirtyTwoDigits();
    ParsePrintHex(u, 32);
    assert s[..8] == h[..8] && s[9..13] == h[8..12] && s[14..18] == h[12..16];
    assert s[19..23] == h[16..20] && s[24..] == h[20..];
    assert h == h[..8] + h[8..12] + h[12..16] + h[16..20] + h[20..];
  }

  /** Hyphens at their four places, lower-case digits at the others. */
  lemma PrintShape(u: Uuid, i: nat)
    requires i < 36
    ensures Print(u)[i] == '-' <==> i in {8, 13, 18, 23}
    ensures Print(u)[i] != '-' ==> '0' <= Print(u)[i] <= '9' || 'a' <= Print(u)[i] <= 'f'
  {
    LowerCase(u, 32);
    hide PrintHex;
    var h := PrintHex(u, 32);
    assert forall k | 0 <= k < 32 :: h[k] in h;
    assert Print(u)[i] == if i in {8, 13, 18, 23} then '-'
                          else h[i - (if i < 8 then 0 else if i < 13 then 1 else if i < 18 then 2 else if i < 23 then 3 else 4)];
  }

  /** Without the hyphens, the digits read as a number are the UUID. */
  lemma PrintedDigits(u: Uuid)
    ensures var s := Print(u); ParseDigits(s[..8] + s[9..13] + s[14..18] + s[19..23] + s[24..], 16) == Some(u)
  {
    hide PrintHex, ParseDigits, Pow16;
    ThirtyTwoDigits();
    ParsePrintHex(u, 32);
    var h := PrintHex(u, 32);
    var s := Print(u);
    assert s[..8] == h[..8] && s[9..13] == h[8..12] && s[14..18] == h[12..16];
    assert s[19..23] == h[16..20] && s[24..] == h[20..];
    assert h == h[..8] + h[8..12] + h[12..16] + h[16..20] + h[20..];
  }

  lemma {:induction false} LowerCase(n: nat, width: nat)
    ensures forall c | c in PrintHex(n, width) :: c != '-' && ('0' <= c <= '9' || 'a' <= c <= 'f')
  {
    if width != 0 {
      LowerCase(n / 16, width - 1);
      DigitsAreLowerCase(n % 16);
    }
  }

  lemma DigitsAreLowerCase(d: nat)
    requires d < 16
    ensures '0' <= Digit(d) <= '9' || 'a' <= Digit(d) <= 'f'
  {
    assert DIGITS == "0123456789abcdef";
  }
}
