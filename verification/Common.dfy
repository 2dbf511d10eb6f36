/** Shared value types: options, results and the fixed-width machine values of the contracts. */
module Common {
  datatype Option<+T> = None | Some(value: T)

  datatype Result<+T, +E> = Ok(value: T) | Err(error: E)

  type Byte = n: nat | n < 0x100
  type U32 = n: nat | n < 0x1_0000_0000
  type U64 = n: nat | n < 0x1_0000_0000_0000_0000
  const U32_MAX: U32 := 0xffff_ffff
  const U64_MAX: U64 := 0xffff_ffff_ffff_ffff

  const ZERO32: seq<Byte> := seq(32, _ => 0)
  /** A contract's `BytesN<32>`. */
  type Bytes32 = b: seq<Byte> | |b| == 32 witness ZERO32

  type Address = string

  /** The index of the first `c` in `s`, or `|s|`. */
  function IndexOf<T(==)>(s: seq<T>, c: T): (i: nat)
    ensures i <= |s|
    ensures i < |s| ==> s[i] == c
    ensures c !in s[..i]
  {
    if s == [] || s[0] == c then 0 else
      var i := 1 + IndexOf(s[1..], c);
      assert s[..i] == [s[0]] + s[1..][..i - 1];
      i
  }

  /** Texts cut at their first separator: equal texts have equal heads and tails. */
  lemma SplitAtSeparator<T>(a: seq<T>, b: seq<T>, c: T, x: seq<T>, y: seq<T>)
    requires c !in a && c !in x
    requires a + [c] + b == x + [c] + y
    ensures a == x && b == y
  {
    var left, right := a + [c] + b, x + [c] + y;
    assert left[|a|] == c && right[|x|] == c;
    assert |a| == |x|;
    assert a == left[..|a|] && x == right[..|a|];
    assert b == left[|a| + 1..] && y == right[|a| + 1..];
  }

  /** Decimal digits of a natural number, as JavaScript's template literals print it. */
  function Decimal(n: nat): (text: string)
    ensures text != ""
  {
    if n < 10 then ["0123456789"[n]] else Decimal(n / 10) + ["0123456789"[n % 10]]
  }

  /** Different numbers print differently, and in digits only. */
  lemma {:induction false} DecimalIsInjective(m: nat, n: nat)
    ensures Decimal(m) == Decimal(n) <==> m == n
    decreases m
  {
    DecimalEnds(m);
    DecimalEnds(n);
    if Decimal(m) == Decimal(n) && m >= 10 && n >= 10 {
      DecimalIsInjective(m / 10, n / 10);
    }
  }

  lemma DecimalEnds(n: nat)
    ensures var t := Decimal(n);
            && t[|t| - 1] == "0123456789"[n % 10]
            && (n < 10 <==> |t| == 1) && (n >= 10 ==> t[..|t| - 1] == Decimal(n / 10))
  {}

  lemma {:induction false} DecimalHasDigitsOnly(n: nat)
    ensures forall i :: 0 <= i < |Decimal(n)| ==> '0' <= Decimal(n)[i] <= '9'
    decreases n
  {
    if n >= 10 { DecimalHasDigitsOnly(n / 10); }
  }

  // ----- lower-case hexadecimal -----

  const HEX_DIGITS: string := "0123456789abcdef"

  function Hex(bytes: seq<Byte>): (text: string)
    ensures |text| == 2 * |bytes|
    ensures forall i :: 0 <= i < |text| ==> text[i] in HEX_DIGITS
  {
    if bytes == [] then "" else HexByte(bytes[0]) + Hex(bytes[1..])
  }

  lemma HexDigitsAre(c: char)
    ensures c in HEX_DIGITS <==> '0' <= c <= '9' || 'a' <= c <= 'f'
  {
    if '0' <= c <= '9' { assert HEX_DIGITS[c as int - 48] == c; }
    if 'a' <= c <= 'f' { assert HEX_DIGITS[c as int - 87] == c; }
  }

  predicate IsHex(text: string) {
    forall i :: 0 <= i < |text| ==> text[i] in HEX_DIGITS
  }

  /** The pattern `^[0-9a-f]{64}$`. */
  predicate IsHex64(text: string) {
    |text| == 64 && forall i :: 0 <= i < 64 ==> text[i] in HEX_DIGITS
  }

  lemma {:induction false} HexIsInjective(a: seq<Byte>, b: seq<Byte>)
    ensures Hex(a) == Hex(b) <==> a == b
    decreases |a|
  {
    if Hex(a) == Hex(b) {
      assert |a| == |b|;
      if a != [] {
        HexStarts(a);
        HexStarts(b);
        HexIsInjective(a[1..], b[1..]);
        HexByteIsInjective(a[0], b[0]);
        assert a == [a[0]] + a[1..] && b == [b[0]] + b[1..];
      }
    }
  }

  function HexByte(b: Byte): string {
    [HEX_DIGITS[b / 16], HEX_DIGITS[b % 16]]
  }

  lemma HexStarts(bytes: seq<Byte>)
    requires bytes != []
    ensures Hex(bytes)[..2] == HexByte(bytes[0]) && Hex(bytes)[2..] == Hex(bytes[1..])
  {}

  lemma HexByteIsInjective(m: Byte, n: Byte)
    requires HexByte(m) == HexByte(n)
    ensures m == n
  {
    assert HexByte(m)[0] == HexByte(n)[0] && HexByte(m)[1] == HexByte(n)[1];
    HexDigitIsInjective(m / 16, n / 16);
    HexDigitIsInjective(m % 16, n % 16);
  }

  lemma HexDigitIsInjective(m: nat, n: nat)
    requires m < 16 && n < 16 && HEX_DIGITS[m] == HEX_DIGITS[n]
    ensures m == n
  {}

  /** Sixty-four lower-case hex digits, nothing else. */
  predicate IsDigestText(text: string) {
    |text| == 64 && forall i :: 0 <= i < 64 ==> '0' <= text[i] <= '9' || 'a' <= text[i] <= 'f'
  }

  lemma DigestTexts(text: string)
    ensures IsHex64(text) <==> IsDigestText(text)
  {
    forall i | 0 <= i < |text| ensures text[i] in HEX_DIGITS <==> '0' <= text[i] <= '9' || 'a' <= text[i] <= 'f' {
      HexDigitsAre(text[i]);
    }
  }
}
