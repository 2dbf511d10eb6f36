/** UTF-16 text as JavaScript strings hold it, and its UTF-8 encoding as `TextEncoder` produces it. */
module Unicode {
  import opened Common

  type Unit = n: nat | n < 0x1_0000
  type Text = seq<Unit>

  predicate IsHigh(c: Unit) { 0xD800 <= c < 0xDC00 }
  predicate IsLow(c: Unit) { 0xDC00 <= c < 0xE000 }
  predicate IsSurrogate(c: Unit) { IsHigh(c) || IsLow(c) }

  /** The text starts with a surrogate pair, that is, one code point in two units. */
  predicate StartsWithPair(t: Text) {
    |t| >= 2 && IsHigh(t[0]) && IsLow(t[1])
  }

  /** No surrogate stands alone. */
  predicate WellFormed(t: Text) {
    if t == [] then true
    else if StartsWithPair(t) then WellFormed(t[2..])
    else !IsSurrogate(t[0]) && WellFormed(t[1..])
  }

  lemma {:induction false} WellFormedConcat(a: Text, b: Text)
    requires WellFormed(a) && WellFormed(b)
    ensures WellFormed(a + b)
    decreases |a|
  {
    if a == [] {
      assert a + b == b;
    } else if StartsWithPair(a) {
      WellFormedConcat(a[2..], b);
      assert (a + b)[2..] == a[2..] + b;
    } else {
      WellFormedConcat(a[1..], b);
      assert (a + b)[1..] == a[1..] + b;
    }
  }

  lemma {:induction false} NoSurrogates(t: Text)
    requires forall i :: 0 <= i < |t| ==> !IsSurrogate(t[i])
    ensures WellFormed(t)
  {
    if t != [] {
      NoSurrogates(t[1..]);
    }
  }

  /** The three bytes of a code point between U+0800 and U+FFFF. */
  function ThreeBytes(c: Unit): seq<Byte> {
    [0xE0 + c / 0x1000, 0x80 + c / 0x40 % 0x40, 0x80 + c % 0x40]
  }

  function PairPoint(high: Unit, low: Unit): (p: nat)
    requires IsHigh(high) && IsLow(low)
    ensures 0x1_0000 <= p < 0x11_0000
  {
    0x1_0000 + (high - 0xD800) * 0x400 + (low - 0xDC00)
  }

  function FourBytes(p: nat): seq<Byte>
    requires p < 0x11_0000
  {
    [0xF0 + p / 0x4_0000, 0x80 + p / 0x1000 % 0x40, 0x80 + p / 0x40 % 0x40, 0x80 + p % 0x40]
  }

  /** A lone surrogate becomes U+FFFD. */
  function Utf8(t: Text): seq<Byte> {
    if t == [] then []
    else if StartsWithPair(t) then FourBytes(PairPoint(t[0], t[1])) + Utf8(t[2..])
    else if t[0] < 0x80 then [t[0]] + Utf8(t[1..])
    else if t[0] < 0x800 then [0xC0 + t[0] / 0x40, 0x80 + t[0] % 0x40] + Utf8(t[1..])
    else ThreeBytes(if IsSurrogate(t[0]) then 0xFFFD else t[0]) + Utf8(t[1..])
  }

  /** The number of bytes the first code point takes, from its first byte. */
  function Width(b: Byte): nat {
    if b < 0x80 then 1 else if b < 0xE0 then 2 else if b < 0xF0 then 3 else 4
  }

  function Point2(x: int, y: int): int { (x - 0xC0) * 0x40 + (y - 0x80) }
  function Point3(x: int, y: int, z: int): int { (x - 0xE0) * 0x1000 + (y - 0x80) * 0x40 + (z - 0x80) }
  function Point4(w: int, x: int, y: int,
                  z: int): int { (w - 0xF0) * 0x4_0000 + (x - 0x80) * 0x1000 + (y - 0x80) * 0x40 + (z - 0x80) }

  /** The first code point of a UTF-8 text, in UTF-16. */
  function DecodeFirst(b: seq<Byte>): Text
    requires b != [] && |b| >= Width(b[0])
  {
    if b[0] < 0x80 then [b[0]]
    else if b[0] < 0xE0 then Narrow(Point2(b[0], b[1]))
    else if b[0] < 0xF0 then Narrow(Point3(b[0], b[1], b[2]))
    else
      var p := Point4(b[0], b[1], b[2], b[3]) - 0x1_0000;
      Narrow(0xD800 + p / 0x400) + Narrow(0xDC00 + p % 0x400)
  }

  function Narrow(n: int): Text {
    if 0 <= n < 0x1_0000 then [n] else []
  }

  /** The first code point of a text. */
  function FirstPoint(t: Text): (h: Text)
    requires t != []
    ensures h <= t && h != []
  {
    if StartsWithPair(t) then t[..2] else t[..1]
  }

  lemma FourDigits(p: nat)
    ensures p == p / 0x4_0000 * 0x4_0000 + p / 0x1000 % 0x40 * 0x1000 + p / 0x40 % 0x40 * 0x40 + p % 0x40
  {
    var q, r := p / 0x40, p / 0x1000;
    assert q == q / 0x40 * 0x40 + q % 0x40 && q / 0x40 == r;
    assert r == r / 0x40 * 0x40 + r % 0x40 && r / 0x40 == p / 0x4_0000;
  }

  lemma FourBytesPoint(p: nat)
    requires p < 0x11_0000
    ensures var b: seq<int> := FourBytes(p); Point4(b[0], b[1], b[2], b[3]) == p
  {
    FourDigits(p);
  }

  lemma PointDecodes(b: seq<Byte>, high: int, low: int)
    requires |b| >= 4 && 0xF0 <= b[0] && 0 <= high < 0x400 && 0 <= low < 0x400
    requires Point4(b[0], b[1], b[2], b[3]) == 0x1_0000 + high * 0x400 + low
    ensures DecodeFirst(b) == [0xD800 + high, 0xDC00 + low]
  {}

  lemma FourBytesDecode(high: Unit, low: Unit, rest: seq<Byte>)
    requires IsHigh(high) && IsLow(low)
    ensures var b := FourBytes(PairPoint(high, low)) + rest;
            Width(b[0]) == 4 && DecodeFirst(b) == [high, low] && b[4..] == rest
  {
    hide Point4, DecodeFirst;
    var p := PairPoint(high, low);
    var f := FourBytes(p);
    FourBytesPoint(p);
    assert f[0] >= 0xF0 && |f| == 4;
    PointDecodes(f + rest, high - 0xD800, low - 0xDC00);
  }

  lemma ThreeBytesDecode(c: Unit, rest: seq<Byte>)
    ensures var b := ThreeBytes(c) + rest; Width(b[0]) == 3 && DecodeFirst(b) == [c] && b[3..] == rest
  {}

  lemma Utf8Splits(t: Text)
    requires WellFormed(t) && t != []
    ensures var b, h := Utf8(t), FirstPoint(t);
            b != [] && |b| >= Width(b[0]) && DecodeFirst(b) == h && b[Width(b[0])..] == Utf8(t[|h|..])
              && WellFormed(t[|h|..])
  {
    if StartsWithPair(t) {
      FourBytesDecode(t[0], t[1], Utf8(t[2..]));
    } else if t[0] >= 0x800 {
      ThreeBytesDecode(t[0], Utf8(t[1..]));
    }
  }

  /** Well-formed texts have different UTF-8 encodings. */
  lemma {:induction false} Utf8IsInjective(a: Text, b: Text)
    requires WellFormed(a) && WellFormed(b)
    ensures Utf8(a) == Utf8(b) <==> a == b
    decreases |a|
  {
    if Utf8(a) == Utf8(b) {
      if a == [] {
        if b != [] { Utf8Splits(b); }
      } else if b == [] {
        Utf8Splits(a);
      } else {
        Utf8Splits(a);
        Utf8Splits(b);
        var h := FirstPoint(a);
        Utf8IsInjective(a[|h|..], b[|h|..]);
        assert a == h + a[|h|..] && b == h + b[|h|..];
      }
    }
  }

  // ----- how long an encoding is -----

  /** Every code point takes the fewest bytes it can, and a lone surrogate is replaced by U+FFFD. */
  lemma ShortestForm(c: Unit)
    ensures |Utf8([c])| == if c < 0x80 then 1 else if c < 0x800 then 2 else 3
    ensures IsSurrogate(c) ==> Utf8([c]) == [0xEF, 0xBF, 0xBD]
    ensures !IsSurrogate(c) ==> WellFormed([c])
  {
    assert [c][1..] == [] && Utf8([]) == [];
  }

  lemma PairsTakeFour(high: Unit, low: Unit)
    requires IsHigh(high) && IsLow(low)
    ensures |Utf8([high, low])| == 4
  {
    assert [high, low][2..] == [] && Utf8([]) == [];
  }

  /** A text of ASCII units as bytes. */
  function Bytes(t: Text): (b: seq<Byte>)
    requires forall i :: 0 <= i < |t| ==> t[i] < 0x80
    ensures |b| == |t| && forall i :: 0 <= i < |t| ==> b[i] == t[i]
  {
    if t == [] then [] else [t[0]] + Bytes(t[1..])
  }

  lemma {:induction false} AsciiIsItself(a: Text, b: Text)
    requires forall i :: 0 <= i < |a| ==> a[i] < 0x80
    ensures Utf8(a + b) == Bytes(a) + Utf8(b)
    decreases |a|
  {
    if a == [] {
      assert a + b == b;
    } else {
      assert (a + b)[1..] == a[1..] + b;
      AsciiIsItself(a[1..], b);
    }
  }
}
