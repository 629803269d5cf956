/** Hexadecimal renderings of 64-bit trace, span and parent IDs.

    `ToHex` is Ruby's `Integer#to_s(16)` on a non-negative integer and
    `PaddedHex` is `to_s(16).rjust(16, '0')`. The decoder
    `TraceId.base16_hex_id_to_uint64` is not part of this model: the codecs
    take it as a parameter, and `DecoderContract` states the behaviour the
    round-trip lemmas assume of it. */
module HexId {
  import opened Wrappers

  const TWO_TO_64: nat := 0x1_0000_0000_0000_0000

  /** Width of a padded 64-bit ID: 16 hex digits. */
  const ID_WIDTH: nat := 16

  predicate IsLowerHexDigit(c: char) {
    '0' <= c <= '9' || 'a' <= c <= 'f'
  }

  predicate IsLowerHex(s: string) {
    forall i :: 0 <= i < |s| ==> IsLowerHexDigit(s[i])
  }

  function DigitValue(c: char): (d: nat)
    requires IsLowerHexDigit(c)
    ensures d < 16
  {
    if c <= '9' then c as int - '0' as int else c as int - 'a' as int + 10
  }

  /** The lowercase digit for `d`; `DigitValue` inverts it. */
  function Digit(d: nat): (c: char)
    requires d < 16
    ensures IsLowerHexDigit(c) && DigitValue(c) == d
  {
    if d < 10 then ('0' as int + d) as char else ('a' as int + d - 10) as char
  }

  /** The number a string of lowercase hex digits denotes, most significant
      digit first; the empty string denotes 0. */
  function HexValue(s: string): nat
    requires IsLowerHex(s)
  {
    if s == [] then 0 else HexValue(s[..|s| - 1]) * 16 + DigitValue(s[|s| - 1])
  }

  function Pow16(k: nat): (p: nat)
    ensures p >= 1
  {
    if k == 0 then 1 else 16 * Pow16(k - 1)
  }

  /** `Integer#to_s(16)`: lowercase digits, no `0x`, no leading zeros, and
      at least one digit (zero renders as "0"). */
  function ToHex(n: nat): (s: string)
    ensures 1 <= |s| && IsLowerHex(s)
    ensures HexValue(s) == n
    ensures s[0] == '0' ==> s == "0"
    decreases n
  {
    if n < 16 then [Digit(n)]
    else
      var prefix := ToHex(n / 16);
      var s := prefix + [Digit(n % 16)];
      assert s[..|s| - 1] == prefix;
      s
  }

  /** `String#rjust(width, '0')`: left-pads with '0' up to `width`
      characters and leaves a longer string as it is. */
  function PadLeft(s: string, width: nat): (r: string)
    ensures |r| == if |s| < width then width else |s|
    ensures r[|r| - |s|..] == s
    ensures forall i :: 0 <= i < |r| - |s| ==> r[i] == '0'
  {
    if |s| < width then seq(width - |s|, _ => '0') + s else s
  }

  /** `to_s(16).rjust(16, '0')`: the same number in lowercase hex, exactly
      16 characters for every value below 2^64. */
  function PaddedHex(n: nat): (s: string)
    ensures IsLowerHex(s) && HexValue(s) == n
    ensures |s| >= ID_WIDTH
    ensures n < TWO_TO_64 ==> |s| == ID_WIDTH
  {
    var digits := ToHex(n);
    var s := PadLeft(digits, ID_WIDTH);
    ZeroPrefixKeepsValue(s[..|s| - |digits|], digits);
    assert s == s[..|s| - |digits|] + digits;
    ToHexFitsWhenBelow(n);
    s
  }

  /** Zero is written as sixteen '0' characters. */
  lemma PaddedZero()
    ensures PaddedHex(0) == "0000000000000000"
  {
  }

  lemma {:induction false} ZerosDenoteZero(z: string)
    requires forall i :: 0 <= i < |z| ==> z[i] == '0'
    ensures IsLowerHex(z) && HexValue(z) == 0
  {
    if z != [] {
      ZerosDenoteZero(z[..|z| - 1]);
    }
  }

  /** Leading zeros do not change the value a hex string denotes. */
  lemma {:induction false} ZeroPrefixKeepsValue(z: string, t: string)
    requires forall i :: 0 <= i < |z| ==> z[i] == '0'
    requires IsLowerHex(t)
    ensures IsLowerHex(z + t) && HexValue(z + t) == HexValue(t)
  {
    ZerosDenoteZero(z);
    if t == [] {
      assert z + t == z;
    } else {
      var t' := t[..|t| - 1];
      ZeroPrefixKeepsValue(z, t');
      assert (z + t)[..|z + t| - 1] == z + t';
    }
  }

  /** A number below 16^k has at most k hex digits. */
  lemma {:induction false} ToHexLength(n: nat, k: nat)
    requires 1 <= k && n < Pow16(k)
    ensures |ToHex(n)| <= k
  {
    if n >= 16 {
      assert k >= 2;
      assert n / 16 < Pow16(k - 1);
      ToHexLength(n / 16, k - 1);
    }
  }

  lemma ToHexFits64(n: nat)
    requires n < TWO_TO_64
    ensures |ToHex(n)| <= ID_WIDTH
  {
    Pow16Add(2, 2);
    Pow16Add(4, 4);
    Pow16Add(8, 8);
    assert Pow16(16) == TWO_TO_64;
    ToHexLength(n, 16);
  }

  lemma {:induction false} Pow16Add(a: nat, b: nat)
    ensures Pow16(a + b) == Pow16(a) * Pow16(b)
  {
    if a > 0 {
      Pow16Add(a - 1, b);
    }
  }

  lemma ToHexFitsWhenBelow(n: nat)
    ensures n < TWO_TO_64 ==> |ToHex(n)| <= ID_WIDTH
  {
    if n < TWO_TO_64 {
      ToHexFits64(n);
    }
  }

  /** Canonical hex strings (no leading zero except "0" itself) are exactly
      the outputs of `ToHex`: rendering the value a canonical string denotes
      gives the string back. */
  lemma {:induction false} ToHexOfCanonical(s: string)
    requires 1 <= |s| && IsLowerHex(s)
    requires s[0] == '0' ==> s == "0"
    ensures ToHex(HexValue(s)) == s
  {
    if |s| > 1 {
      var prefix := s[..|s| - 1];
      var last := s[|s| - 1];
      LeadingDigitPositive(prefix);
      ToHexOfCanonical(prefix);
      var v := HexValue(s);
      assert v / 16 == HexValue(prefix) && v % 16 == DigitValue(last);
      DigitOfValue(last);
      assert s == prefix + [last];
    } else {
      DigitOfValue(s[0]);
      assert s == [s[0]];
    }
  }

  lemma LeadingDigitPositive(s: string)
    requires 1 <= |s| && IsLowerHex(s) && s[0] != '0'
    ensures HexValue(s) >= 1
  {
    if |s| > 1 {
      LeadingDigitPositive(s[..|s| - 1]);
    }
  }

  lemma DigitOfValue(c: char)
    requires IsLowerHexDigit(c)
    ensures Digit(DigitValue(c)) == c
  {
  }

  /** The behaviour the model assumes of `TraceId.base16_hex_id_to_uint64`,
      whose source is not part of this model: a missing header (Ruby `nil`)
      decodes to `None`, and every lowercase hex string of 1 to 16 digits,
      padded or not, decodes to the number it denotes. Nothing is assumed
      about malformed or longer input. */
  ghost predicate DecoderContract(decode: Option<string> -> Option<nat>) {
    && decode(None) == None
    && forall s {:trigger decode(Some(s))} :: IsLowerHex(s) && 1 <= |s| <= ID_WIDTH ==> decode(Some(s)) == Some(HexValue(s))
  }

  /** The assumed decoder contract can be met, so the lemmas that assume it
      are not vacuous. */
  lemma DecoderContractSatisfiable()
    ensures exists decode :: DecoderContract(decode)
  {
    var strict: Option<string> -> Option<nat> := (o: Option<string>) =>
      if o.Some? && IsLowerHex(o.value) && 1 <= |o.value| <= ID_WIDTH then Some(HexValue(o.value)) else None;
    assert DecoderContract(strict);
  }

  /** Both renderings the codecs write decode back under the contract. */
  lemma DecodesRenderings(decode: Option<string> -> Option<nat>, n: nat)
    requires DecoderContract(decode) && n < TWO_TO_64
    ensures decode(Some(ToHex(n))) == Some(n)
    ensures decode(Some(PaddedHex(n))) == Some(n)
  {
    ToHexFits64(n);
  }
}
