/** Number printing and parsing, and splitting, as the standard library of the program does them. */
module Text {
  import opened Wrappers

  const DIGITS := "0123456789abcdef"

  function Digit(d: nat): (c: char)
    requires d < 16
    ensures DigitValue(c) == Some(d) && c != ':' && c != '|' && c != '-'
  {
    assert |DIGITS| == 16;
    DIGITS[d]
  }

  function DigitValue(c: char): (v: Option<nat>)
    ensures v.Some? ==> v.value < 16
  {
    if '0' <= c <= '9' then Some(c as int - '0' as int)
    else if 'a' <= c <= 'f' then Some(c as int - 'a' as int + 10)
    else if 'A' <= c <= 'F' then Some(c as int - 'A' as int + 10)
    else None
  }

  predicate IsDigit(c: char, base: nat) {
    DigitValue(c).Some? && DigitValue(c).value < base
  }

  function PrintNat(n: nat, base: nat): (s: string)
    requires base == 10 || base == 16
    ensures |s| > 0 && forall c | c in s :: IsDigit(c, base) && c != ':' && c != '|' && c != '-'
    decreases n
  {
    if n < base then [Digit(n)] else PrintNat(n / base, base) + [Digit(n % base)]
  }

  function ParseDigits(s: string, base: nat): (n: Option<nat>)
    ensures n.Some? <==> forall c | c in s :: IsDigit(c, base)
  {
    if s == [] then Some(0)
    else
      assert s == s[..|s| - 1] + [s[|s| - 1]];
      var high := ParseDigits(s[..|s| - 1], base);
      if high.Some? && IsDigit(s[|s| - 1], base)
      then Some(high.value * base + DigitValue(s[|s| - 1]).value)
      else None
  }

  lemma ParseSnoc(s: string, c: char, base: nat)
    requires ParseDigits(s, base).Some? && IsDigit(c, base)
    ensures ParseDigits(s + [c], base) == Some(ParseDigits(s, base).value * base + DigitValue(c).value)
  {
  }

  lemma DivMod(n: nat, base: nat)
    requires base == 10 || base == 16
    ensures n / base * base + n % base == n
  {
  }

  lemma {:induction false} ParsePrintNat(n: nat, base: nat)
    requires base == 10 || base == 16
    ensures ParseDigits(PrintNat(n, base), base) == Some(n)
    decreases n
  {
    if n < base {
      ParseSnoc([], Digit(n), base);
      assert [Digit(n)] == [] + [Digit(n)];
    } else {
      ParsePrintNat(n / base, base);
      ParseSnoc(PrintNat(n / base, base), Digit(n % base), base);
      DivMod(n, base);
    }
  }

  lemma {:induction false} NoLeadingZero(n: nat, base: nat)
    requires base == 10 || base == 16
    ensures |PrintNat(n, base)| > 1 ==> PrintNat(n, base)[0] != '0'
    ensures n > 0 ==> PrintNat(n, base)[0] != '0'
    decreases n
  {
    assert DIGITS[0] == '0' && forall d | 0 < d < 16 :: DIGITS[d] != '0';
    if n >= base {
      DivMod(n, base);
      NoLeadingZero(n / base, base);
    }
  }

  function PrintInt(n: int): (s: string)
    ensures |s| > 0 && ':' !in s && '|' !in s
    ensures s[0] == '-' || IsDigit(s[0], 10)
  {
    if n < 0 then "-" + PrintNat(-n, 10) else PrintNat(n, 10)
  }

  /** `str::parse` for a signed integer type whose values are `lo` to `hi`. */
  function ParseInt(s: string, lo: int, hi: int): (n: Option<int>)
    ensures n.Some? ==> lo <= n.value <= hi && s != [] && (s[0] == '-' || s[0] == '+' || IsDigit(s[0], 10))
    ensures n.Some? ==> forall i | 0 < i < |s| :: IsDigit(s[i], 10)
  {
    var signed := s != [] && (s[0] == '-' || s[0] == '+');
    var digits := if signed then s[1..] else s;
    assert forall i | 0 < i < |s| :: s[i] in digits;
    assert s != [] && !signed ==> s[0] in digits;
    var magnitude := ParseDigits(digits, 10);
    if digits == [] || magnitude.None? then None
    else
      var m: int := magnitude.value;
      var n := if s[0] == '-' then -m else m;
      if lo <= n <= hi then Some(n) else None
  }

  lemma FirstIsDigit(c: char)
    ensures IsDigit(c, 10) ==> c != '-' && c != '+'
  {
  }

  /** A printed integer reads back as itself wherever it fits the type. */
  lemma ParsePrintInt(n: int, lo: int, hi: int)
    requires lo <= n <= hi
    ensures ParseInt(PrintInt(n), lo, hi) == Some(n)
  {
    hide PrintNat, ParseDigits, DigitValue;
    var digits := PrintNat(if n < 0 then -n else n, 10);
    FirstIsDigit(digits[0]);
    ParsePrintNat(if n < 0 then -n else n, 10);
    assert digits[0] in digits;
    assert IsDigit(digits[0], 10);
    assert digits[0] != '-' && digits[0] != '+';
    if n < 0 {
      assert PrintInt(n)[1..] == digits;
    }
  }

  /** `splitn(2, c)`, with None where there is only one part. */
  function SplitOnce(s: string, c: char): (r: Option<(string, string)>)
    ensures r.None? <==> c !in s
    ensures r.Some? ==> s == r.value.0 + [c] + r.value.1 && c !in r.value.0
  {
    if s == [] then None
    else if s[0] == c then Some(([], s[1..]))
    else
      match SplitOnce(s[1..], c)
      case None => None
      case Some((a, b)) => Some(([s[0]] + a, b))
  }

  lemma {:induction false} SplitAt(a: string, c: char, b: string)
    requires c !in a
    ensures SplitOnce(a + [c] + b, c) == Some((a, b))
  {
    if a == [] {
      assert (a + [c] + b)[1..] == b;
    } else {
      var s := a + [c] + b;
      assert s != [] && s[0] == a[0] && s[0] != c;
      assert s[1..] == a[1..] + [c] + b;
      SplitAt(a[1..], c, b);
      assert a == [a[0]] + a[1..];
    }
  }

  predicate HasPrefix(s: string, p: string): (yes: bool)
    ensures yes && p != [] ==> s != [] && s[0] == p[0]
  {
    |p| <= |s| && forall i | 0 <= i < |p| :: s[i] == p[i]
  }
}
