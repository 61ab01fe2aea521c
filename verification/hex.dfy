/** The textual hexadecimal forms the driver passes around: JavaScript's
    `n.toString(16)`, the `Number("0x..")` parse that `Buffer.from` applies to
    each string, and the `hexBufferEquals` byte test. */
module Hex {
  import opened Base

  /** The lower-case digit that `toString(16)` prints for `d`. */
  function HexDigit(d: nat): (c: char)
    requires d < 16
  {
    if d < 10 then ('0' as int + d) as char else ('a' as int + d - 10) as char
  }

  /** `n.toString(16)`: lower-case base 16, no leading zeros, "0" for zero. */
  function ToHex(n: nat): (s: string)
    ensures |s| > 0
    ensures s[0] == '0' <==> n == 0
    decreases n
  {
    if n < 16 then [HexDigit(n)] else ToHex(n / 16) + [HexDigit(n % 16)]
  }

  /** The value of one hexadecimal digit of either case. */
  function DigitValue(c: char): (r: Option<nat>)
    ensures r.Some? ==> r.value < 16
  {
    if '0' <= c <= '9' then Some(c as int - '0' as int)
    else if 'a' <= c <= 'f' then Some(c as int - 'a' as int + 10)
    else if 'A' <= c <= 'F' then Some(c as int - 'A' as int + 10)
    else None
  }

  /** The number a run of hexadecimal digits denotes; None (NaN) when the run
      is empty or holds a character that is not a digit. */
  function ParseDigits(s: string): (r: Option<nat>)
    decreases |s|
  {
    if |s| == 0 then None
    else if |s| == 1 then DigitValue(s[0])
    else
      match ParseDigits(s[..|s| - 1])
      case None => None
      case Some(high) =>
        match DigitValue(s[|s| - 1])
        case None => None
        case Some(low) => Some(high * 16 + low)
  }

  /** Parsing what `toString(16)` printed gives the number back. */
  lemma {:induction false} ParseToHex(n: nat)
    ensures ParseDigits(ToHex(n)) == Some(n)
    decreases n
  {
    assert DigitValue(HexDigit(n % 16)) == Some(n % 16);
    if n >= 16 {
      ParseToHex(n / 16);
      var s := ToHex(n);
      assert s[..|s| - 1] == ToHex(n / 16);
      assert s[|s| - 1] == HexDigit(n % 16);
    }
  }

  /** Two numbers print the same only if they are equal. */
  lemma ToHexInjective(m: nat, n: nat)
    ensures ToHex(m) == ToHex(n) <==> m == n
  {
    if ToHex(m) == ToHex(n) {
      ParseToHex(m);
      ParseToHex(n);
    }
  }

  /** `s.replace("0x", "")`: removes the first occurrence of "0x" only. */
  function Replace0x(s: string): (r: string)
    ensures |r| <= |s|
    decreases |s|
  {
    if |s| < 2 then s
    else if s[0] == '0' && s[1] == 'x' then s[2..]
    else [s[0]] + Replace0x(s[1..])
  }

  /** Replace0x cuts out the first "0x" and keeps everything around it. */
  lemma {:induction false} Replace0xFirst(s: string, i: nat)
    requires i + 1 < |s| && s[i] == '0' && s[i + 1] == 'x'
    requires forall j :: 0 <= j < i ==> !(s[j] == '0' && s[j + 1] == 'x')
    ensures Replace0x(s) == s[..i] + s[i + 2..]
    decreases i
  {
    if i > 0 {
      assert !(s[0] == '0' && s[1] == 'x');
      var t := s[1..];
      forall j | 0 <= j < i - 1
        ensures !(t[j] == '0' && t[j + 1] == 'x')
      {
        assert t[j] == s[j + 1] && t[j + 1] == s[j + 2];
      }
      Replace0xFirst(t, i - 1);
      assert [s[0]] + (t[..i - 1] + t[i + 1..]) == s[..i] + s[i + 2..];
    }
  }

  /** A string without "0x" is returned as it is. */
  lemma {:induction false} Replace0xAbsent(s: string)
    requires forall j :: 0 <= j < |s| - 1 ==> !(s[j] == '0' && s[j + 1] == 'x')
    ensures Replace0x(s) == s
    decreases |s|
  {
    if |s| >= 2 {
      assert !(s[0] == '0' && s[1] == 'x');
      var t := s[1..];
      forall j | 0 <= j < |t| - 1
        ensures !(t[j] == '0' && t[j + 1] == 'x')
      {
        assert t[j] == s[j + 1] && t[j + 1] == s[j + 2];
      }
      Replace0xAbsent(t);
      assert [s[0]] + t == s;
    }
  }

  /** `hexBufferEquals`: compares the printed form of one buffer byte with a
      "0x.." literal stripped of its prefix. Reading outside the buffer throws
      in the driver, so the index must be in range. */
  function HexBufferEquals(buffer: seq<Byte>, index: int, hex: string): (b: bool)
    requires 0 <= index < |buffer|
    ensures b ==> ParseDigits(Replace0x(hex)) == Some(buffer[index])
  {
    ParseToHex(buffer[index]);
    ToHex(buffer[index]) == Replace0x(hex)
  }

  /** For a literal written the way `toString(16)` prints, the string
      comparison is exactly a byte comparison. */
  lemma HexBufferEqualsByte(buffer: seq<Byte>, index: int, v: nat)
    requires 0 <= index < |buffer|
    ensures HexBufferEquals(buffer, index, "0x" + ToHex(v)) <==> buffer[index] == v
  {
    var hex := "0x" + ToHex(v);
    assert Replace0x(hex) == ToHex(v) by {
      assert hex[2..] == ToHex(v);
    }
    ToHexInjective(buffer[index], v);
  }

  /** The comparison is textual: a literal whose digits start with 0
      matches only the byte 0 written as "0x0", so a padded literal such as
      "0x0c" matches no byte at all, while "0xc" matches 0x0C. */
  lemma HexBufferEqualsPaddedLiteral(buffer: seq<Byte>, index: int, digits: string)
    requires 0 <= index < |buffer|
    ensures HexBufferEquals(buffer, index, "0x0" + digits) <==> buffer[index] == 0 && digits == ""
    ensures HexBufferEquals([0x0C], 0, "0xc")
  {
    var hex := "0x0" + digits;
    assert Replace0x(hex) == "0" + digits by {
      assert hex[2..] == "0" + digits;
    }
  }
}
