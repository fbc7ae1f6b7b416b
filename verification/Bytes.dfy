/** Bytes and the fixed-width little-endian numbers of the wire formats. */
module Bytes {
  type Byte = b: nat | b < 256
  type Bytes = seq<Byte>

  // The `width` low bytes of `n`, least significant first; higher bytes are cut off.
  function ToLe(n: nat, width: nat): (r: Bytes)
    ensures |r| == width
  {
    if width == 0 then [] else [n % 256] + ToLe(n / 256, width - 1)
  }

  function FromLe(b: Bytes): nat {
    if b == [] then 0 else b[0] + 256 * FromLe(b[1..])
  }

  // `n` fits in `width` bytes.
  predicate FitsIn(n: nat, width: nat) {
    if width == 0 then n == 0 else FitsIn(n / 256, width - 1)
  }

  lemma {:induction false} LeRoundTrip(n: nat, width: nat)
    requires FitsIn(n, width)
    ensures FromLe(ToLe(n, width)) == n
  {
    if width > 0 {
      LeRoundTrip(n / 256, width - 1);
      assert ToLe(n, width)[1..] == ToLe(n / 256, width - 1);
    }
  }

  lemma LowByte(low: Byte, high: nat)
    ensures (low + 256 * high) % 256 == low && (low + 256 * high) / 256 == high
  {
  }

  // Every byte string is the little-endian form of the number it denotes.
  lemma {:induction false} LeSurjective(b: Bytes)
    ensures FitsIn(FromLe(b), |b|) && ToLe(FromLe(b), |b|) == b
  {
    if b != [] {
      LeSurjective(b[1..]);
      LowByte(b[0], FromLe(b[1..]));
      assert b == [b[0]] + b[1..];
    }
  }

  lemma FitsTwo(n: nat)
    ensures FitsIn(n, 2) <==> n < 0x1_0000
  {
    assert FitsIn(n, 2) == FitsIn(n / 256, 1);
    assert FitsIn(n / 256, 1) == FitsIn(n / 256 / 256, 0);
  }

  lemma FitsFour(n: nat)
    ensures FitsIn(n, 4) <==> n < 0x1_0000_0000
  {
    FitsTwo(n / 256 / 256);
    assert FitsIn(n, 4) == FitsIn(n / 256, 3);
    assert FitsIn(n / 256, 3) == FitsIn(n / 256 / 256, 2);
  }

  lemma FitsEight(n: nat)
    ensures FitsIn(n, 8) <==> n < 0x1_0000_0000_0000_0000
  {
    var h := n / 0x1_0000_0000;
    assert h == n / 256 / 256 / 256 / 256;
    FitsFour(h);
    assert FitsIn(n, 8) == FitsIn(n / 256, 7);
    assert FitsIn(n / 256, 7) == FitsIn(n / 256 / 256, 6);
    assert FitsIn(n / 256 / 256, 6) == FitsIn(n / 256 / 256 / 256, 5);
    assert FitsIn(n / 256 / 256 / 256, 5) == FitsIn(h, 4);
  }

  // Network order: most significant byte first.
  function ToBe(n: nat, width: nat): (r: Bytes)
    ensures |r| == width
  {
    if width == 0 then [] else ToBe(n / 256, width - 1) + [n % 256]
  }

  function FromBe(b: Bytes): nat {
    if b == [] then 0 else FromBe(b[..|b| - 1]) * 256 + b[|b| - 1]
  }

  lemma {:induction false} BeRoundTrip(n: nat, width: nat)
    requires FitsIn(n, width)
    ensures FromBe(ToBe(n, width)) == n
  {
    if width > 0 {
      BeRoundTrip(n / 256, width - 1);
      assert ToBe(n, width)[..width - 1] == ToBe(n / 256, width - 1);
    }
  }
}
