/**
 * Address literals: `"0x" + n.toString(16).padStart(4, "0")`, i.e. lower-case
 * hexadecimal padded on the left to at least four digits and never cut.
 */
module Hex {
  import opened Wrappers

  predicate IsHexDigit(c: char) { '0' <= c <= '9' || 'a' <= c <= 'f' }

  predicate IsLowerHex(s: string) {
    forall i :: 0 <= i < |s| ==> IsHexDigit(s[i])
  }

  function DigitChar(d: nat): (c: char)
    requires d < 16
    ensures IsHexDigit(c)
  {
    if d < 10 then ('0' as int + d) as char else ('a' as int + d - 10) as char
  }

  function DigitValue(c: char): (d: nat)
    requires IsHexDigit(c)
    ensures d < 16 && DigitChar(d) == c
  {
    if c <= '9' then c as int - '0' as int else c as int - 'a' as int + 10
  }

  /** Reads a string of hex digits, most significant first. */
  function ParseHex(s: string): nat
    requires IsLowerHex(s)
  {
    if s == [] then 0 else 16 * ParseHex(s[..|s| - 1]) + DigitValue(s[|s| - 1])
  }

  /** `Number.prototype.toString(16)` on a non-negative integer. */
  function ToHex(n: nat): (r: string)
    ensures 1 <= |r| && IsLowerHex(r)
    ensures ParseHex(r) == n
    ensures r[0] == '0' <==> n == 0
    ensures n < 0x10 ==> |r| == 1
    ensures n < 0x100 ==> |r| <= 2
    ensures n < 0x1000 ==> |r| <= 3
    ensures n < 0x10000 ==> |r| <= 4
    decreases n
  {
    if n < 16 then [DigitChar(n)]
    else
      var high := ToHex(n / 16);
      var r := high + [DigitChar(n % 16)];
      assert r[..|r| - 1] == high;
      r
  }

  function Zeros(k: nat): (z: string)
    ensures |z| == k && IsLowerHex(z)
  {
    seq(k, _ => '0')
  }

  /** `String.prototype.padStart(width, "0")`. */
  function PadStart(s: string, width: nat): string {
    if |s| >= width then s else Zeros(width - |s|) + s
  }

  lemma {:induction false} LeadingZeros(k: nat, s: string)
    requires IsLowerHex(s)
    ensures IsLowerHex(Zeros(k) + s)
    ensures ParseHex(Zeros(k) + s) == ParseHex(s)
    decreases |s|
  {
    if s == [] {
      assert Zeros(k) + s == Zeros(k);
      ZerosValue(k);
    } else {
      var init := s[..|s| - 1];
      assert (Zeros(k) + s)[..|Zeros(k) + s| - 1] == Zeros(k) + init;
      LeadingZeros(k, init);
    }
  }

  lemma {:induction false} ZerosValue(k: nat)
    ensures ParseHex(Zeros(k)) == 0
  {
    if k > 0 {
      assert Zeros(k)[..k - 1] == Zeros(k - 1);
      ZerosValue(k - 1);
    }
  }

  function Max(a: nat, b: nat): nat { if a < b then b else a }

  /** The address literal written for cursor value `n`. */
  function FormatAddress(n: nat): (r: string)
    ensures |r| == 2 + Max(4, |ToHex(n)|)
    ensures n < 0x10000 ==> |r| == 6
    ensures r[..2] == "0x"
    ensures IsLowerHex(r[2..]) && ParseHex(r[2..]) == n
  {
    var digits := PadStart(ToHex(n), 4);
    assert IsLowerHex(digits) && ParseHex(digits) == n by {
      if |ToHex(n)| < 4 { LeadingZeros(4 - |ToHex(n)|, ToHex(n)); }
    }
    var r := "0x" + digits;
    assert r[2..] == digits;
    r
  }

  /** Reads back an address literal; the partner of `FormatAddress`. */
  function ParseAddress(s: string): Option<nat> {
    if |s| >= 2 && s[..2] == "0x" && IsLowerHex(s[2..]) then Some(ParseHex(s[2..])) else None
  }

  lemma AddressRoundTrip(n: nat)
    ensures ParseAddress(FormatAddress(n)) == Some(n)
  {
  }

  lemma FormatAddressInjective(m: nat, n: nat)
    ensures FormatAddress(m) == FormatAddress(n) <==> m == n
  {
    if FormatAddress(m) == FormatAddress(n) {
      AddressRoundTrip(m);
      AddressRoundTrip(n);
    }
  }

  /** Small cursor values are zero-padded to four digits. */
  lemma SmallAddresses()
    ensures FormatAddress(0) == "0x0000"
    ensures FormatAddress(8) == "0x0008"
    ensures FormatAddress(16) == "0x0010"
  {
    assert ToHex(0) == "0";
    assert ToHex(8) == "8";
    assert ToHex(16) == ToHex(1) + ['0'];
  }

  /** Values of five or more hex digits are written in full, never cut to four. */
  lemma WideAddress()
    ensures FormatAddress(0x12345) == "0x12345"
  {
    assert ToHex(1) == "1";
    assert ToHex(0x12) == ToHex(1) + ['2'];
    assert ToHex(0x123) == ToHex(0x12) + ['3'];
    assert ToHex(0x1234) == ToHex(0x123) + ['4'];
    assert ToHex(0x12345) == ToHex(0x1234) + ['5'];
  }
}
