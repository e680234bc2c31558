/** The string renderings every part of the captcha agrees on: decimal nonces,
    lowercase hexadecimal digests, the "0".repeat(d) prefix and the prefix and
    substring tests. */
module Encoding {

  /** A byte of a digest buffer. */
  type uint8 = x: int | 0 <= x < 256

  predicate IsDecimalDigit(c: char) {
    '0' <= c <= '9'
  }

  predicate IsHexChar(c: char) {
    '0' <= c <= '9' || 'a' <= c <= 'f'
  }

  function DecimalDigit(v: nat): (c: char)
    requires v < 10
    ensures IsDecimalDigit(c) && DigitValue(c) == v
  {
    ('0' as int + v) as char
  }

  function DigitValue(c: char): (v: nat)
    requires IsDecimalDigit(c)
    ensures v < 10
  {
    c as int - '0' as int
  }

  // ---------------------------------------------------------------------------
  // Decimal rendering of a nonce
  // ---------------------------------------------------------------------------

  /** The decimal rendering of a natural number, as JavaScript's `challenge + nonce`
      and `nonce.toString()`, Rust's `format!("{i}")` and `i.to_string()`, and
      Python's `str` give it: digits only, no sign, no leading zero. */
  function Decimal(n: nat): (s: string)
    ensures |s| >= 1
    ensures forall i :: 0 <= i < |s| ==> IsDecimalDigit(s[i])
    ensures s[0] == '0' <==> n == 0
    decreases n
  {
    if n < 10 then [DecimalDigit(n)] else Decimal(n / 10) + [DecimalDigit(n % 10)]
  }

  /** The value of a string of decimal digits (most significant first). */
  function ParseDecimal(s: string): nat
    requires forall i :: 0 <= i < |s| ==> IsDecimalDigit(s[i])
    decreases |s|
  {
    if s == [] then 0 else 10 * ParseDecimal(s[..|s| - 1]) + DigitValue(s[|s| - 1])
  }

  /** Reading a rendered nonce back gives the nonce: rendering loses nothing. */
  lemma {:induction false} DecimalRoundTrip(n: nat)
    ensures ParseDecimal(Decimal(n)) == n
    decreases n
  {
    if n >= 10 {
      var s := Decimal(n);
      assert s[..|s| - 1] == Decimal(n / 10);
      DecimalRoundTrip(n / 10);
    }
  }

  /** Two nonces with the same rendering are the same nonce. */
  lemma DecimalInjective(a: nat, b: nat)
    requires Decimal(a) == Decimal(b)
    ensures a == b
  {
    DecimalRoundTrip(a);
    DecimalRoundTrip(b);
  }

  // ---------------------------------------------------------------------------
  // Hexadecimal rendering of a digest
  // ---------------------------------------------------------------------------

  function HexDigit(v: nat): (c: char)
    requires v < 16
    ensures IsHexChar(c)
    ensures c == '0' <==> v == 0
  {
    if v < 10 then ('0' as int + v) as char else ('a' as int + v - 10) as char
  }

  /** The i-th four-bit group of a byte string, high half of each byte first. */
  function Nibble(bytes: seq<uint8>, i: nat): (v: nat)
    requires i < 2 * |bytes|
    ensures v < 16
  {
    if i % 2 == 0 then bytes[i / 2] / 16 else bytes[i / 2] % 16
  }

  /** Lowercase hexadecimal, two characters per byte, high nibble first: what
      Rust's `hex::encode` and Python's `hexdigest()` produce. */
  function Hex(bytes: seq<uint8>): (s: string)
    ensures |s| == 2 * |bytes|
    ensures forall i :: 0 <= i < |s| ==> s[i] == HexDigit(Nibble(bytes, i))
    decreases |bytes|
  {
    if bytes == [] then []
    else
      var rest := Hex(bytes[1..]);
      assert forall i :: 2 <= i < 2 * |bytes| ==> Nibble(bytes[1..], i - 2) == Nibble(bytes, i);
      [HexDigit(bytes[0] / 16), HexDigit(bytes[0] % 16)] + rest
  }

  /** Every character of a hex rendering is a lowercase hex digit. */
  lemma HexIsLowercase(bytes: seq<uint8>)
    ensures forall i :: 0 <= i < |Hex(bytes)| ==> IsHexChar(Hex(bytes)[i])
  {
  }

  /** JavaScript's `Number.prototype.toString(16)` on a non-negative integer. */
  function Radix16(n: nat): string
    decreases n
  {
    if n < 16 then [HexDigit(n)] else Radix16(n / 16) + [HexDigit(n % 16)]
  }

  /** JavaScript's `String.prototype.padStart(target, fill)` with a one-character fill. */
  function PadStart(s: string, target: nat, fill: char): string {
    if |s| >= target then s else seq(target - |s|, _ => fill) + s
  }

  /** The browser clients' rendering of a digest:
      `Array.from(bytes).map(b => b.toString(16).padStart(2, "0")).join("")`. */
  function JsHex(bytes: seq<uint8>): (s: string)
    ensures |s| == 2 * |bytes|
    ensures forall i :: 0 <= i < |s| ==> IsHexChar(s[i])
    decreases |bytes|
  {
    if bytes == [] then ""
    else
      ByteJsHex(bytes[0]);
      PadStart(Radix16(bytes[0]), 2, '0') + JsHex(bytes[1..])
  }

  /** One byte through toString(16) and padStart(2, "0") is its two hex digits. */
  lemma ByteJsHex(b: uint8)
    ensures PadStart(Radix16(b), 2, '0') == [HexDigit(b / 16), HexDigit(b % 16)]
  {
    if b >= 16 {
      assert Radix16(b / 16) == [HexDigit(b / 16)];
    }
  }

  /** The browser rendering and the Rust/Python rendering of a digest are the
      same string, so all three sides test the same prefix. */
  lemma {:induction false} JsHexIsHex(bytes: seq<uint8>)
    ensures JsHex(bytes) == Hex(bytes)
    decreases |bytes|
  {
    if bytes != [] {
      ByteJsHex(bytes[0]);
      JsHexIsHex(bytes[1..]);
    }
  }

  // ---------------------------------------------------------------------------
  // Prefix and substring tests
  // ---------------------------------------------------------------------------

  /** `"0".repeat(d)` in JavaScript and Rust, `"0" * d` in Python. */
  function Zeros(d: nat): string {
    seq(d, _ => '0')
  }

  /** `s.startsWith(p)` / `s.starts_with(p)` / `s.startswith(p)`. */
  predicate StartsWith(s: string, p: string) {
    |p| <= |s| && s[..|p|] == p
  }

  /** A string starts with d zeros exactly when it is at least d long and its
      first d characters are '0'. */
  lemma ZeroPrefixIff(s: string, d: nat)
    ensures StartsWith(s, Zeros(d)) <==> d <= |s| && forall i :: 0 <= i < d ==> s[i] == '0'
  {
    if d <= |s| && forall i :: 0 <= i < d ==> s[i] == '0' {
      assert s[..d] == Zeros(d);
    }
  }

  /** A prefix of d zeros contains every shorter prefix of zeros. */
  lemma ZeroPrefixMonotone(s: string, d: nat, k: nat)
    requires k <= d
    requires StartsWith(s, Zeros(d))
    ensures StartsWith(s, Zeros(k))
  {
    ZeroPrefixIff(s, d);
    ZeroPrefixIff(s, k);
  }

  /** Difficulty in hex characters is difficulty in nibbles: the hex rendering
      starts with d zeros exactly when the first d four-bit groups are zero. */
  lemma HexZeroPrefix(bytes: seq<uint8>, d: nat)
    ensures StartsWith(Hex(bytes), Zeros(d)) <==>
              d <= 2 * |bytes| && forall i :: 0 <= i < d ==> Nibble(bytes, i) == 0
  {
    ZeroPrefixIff(Hex(bytes), d);
  }

  /** `s.includes(sub)` in JavaScript. */
  predicate Contains(s: string, sub: string)
    decreases |s|
  {
    StartsWith(s, sub) || (|s| > 0 && Contains(s[1..], sub))
  }

  /** `sub` occurs in `s` starting at position i. */
  predicate OccursAt(s: string, sub: string, i: int) {
    0 <= i <= |s| - |sub| && s[i..i + |sub|] == sub
  }

  /** `includes` finds `sub` exactly when `sub` occurs at some position. */
  lemma {:induction false} ContainsIff(s: string, sub: string)
    ensures Contains(s, sub) <==> exists i :: OccursAt(s, sub, i)
    decreases |s|
  {
    if OccursAt(s, sub, 0) {
      assert StartsWith(s, sub);
    }
    if |s| > 0 {
      ContainsIff(s[1..], sub);
      if Contains(s[1..], sub) {
        var i :| OccursAt(s[1..], sub, i);
        assert s[1..][i..i + |sub|] == s[i + 1..i + 1 + |sub|];
        assert OccursAt(s, sub, i + 1);
      }
      if exists i :: OccursAt(s, sub, i) {
        var i :| OccursAt(s, sub, i);
        if i > 0 {
          assert OccursAt(s[1..], sub, i - 1);
        }
      }
    }
  }

  /** `includes` finds `sub` between any prefix and any suffix. */
  lemma {:induction false} ContainsInfix(a: string, sub: string, b: string)
    ensures Contains(a + sub + b, sub)
    decreases |a|
  {
    if |a| == 0 {
      assert (a + sub + b)[..|sub|] == sub;
    } else {
      ContainsInfix(a[1..], sub, b);
      assert (a + sub + b)[1..] == a[1..] + sub + b;
    }
  }

  /** A string that lacks some character of `sub` does not contain `sub`. */
  lemma MissingCharNotContained(s: string, sub: string, k: nat)
    requires k < |sub|
    requires forall j :: 0 <= j < |s| ==> s[j] != sub[k]
    ensures !Contains(s, sub)
  {
    ContainsIff(s, sub);
    forall i | 0 <= i <= |s| - |sub|
      ensures !OccursAt(s, sub, i)
    {
      assert s[i..i + |sub|][k] == s[i + k];
    }
  }
}
