/** FNV-1a on 64 bits, and why it notices a changed byte. */
module Checksums {
  import opened Powers
  import opened Words

  /** Exclusive or of the lowest `width` bits. */
  function Xor(width: nat, a: nat, b: nat): (r: nat)
    ensures r < Pow2(width)
  {
    if width == 0 then 0 else (if a % 2 == b % 2 then 0 else 1) + 2 * Xor(width - 1, a / 2, b / 2)
  }

  function Xor8(a: Byte, b: Byte): Byte {
    assert Pow2(8) == 256;
    Xor(8, a, b)
  }

  /** FNV-1a on 64 bits; exclusive or with a byte only touches the low byte. */
  function Mix(h: nat, b: Byte): nat {
    (h / 256 * 256 + Xor8(h % 256, b)) * 1099511628211 % TWO_64
  }

  function Checksum(s: Bytes): (h: nat)
    ensures h < TWO_64
  {
    if s == [] then 1469598103934665603 else Mix(Checksum(s[..|s| - 1]), s[|s| - 1])
  }

  method ComputeChecksum(s: Bytes) returns (h: nat)
    ensures h == Checksum(s)
  {
    h := 1469598103934665603;
    for i := 0 to |s|
      invariant h == Checksum(s[..i])
    {
      assert s[..i + 1][..i] == s[..i];
      h := Mix(h, s[i]);
    }
    assert s[..|s|] == s;
  }

  /** The multiplier is odd, so it has an inverse modulo 2^64 and no two states are mixed into one. */
  lemma MultiplyInjective(x: nat, y: nat)
    requires x < TWO_64 && y < TWO_64 && x * 1099511628211 % TWO_64 == y * 1099511628211 % TWO_64
    ensures x == y
  {
    var t := x * 1099511628211 / TWO_64 - y * 1099511628211 / TWO_64;
    assert (x - y) * 1099511628211 == t * TWO_64;
    assert (x - y) * (1099511628211 * INVERSE) == (t * INVERSE) * TWO_64;
    assert x - y == (t * INVERSE - (x - y) * WRAPS) * TWO_64;
    SmallMultiple(x - y, t * INVERSE - (x - y) * WRAPS);
  }

  const INVERSE: nat := 14886173955864302971
  const WRAPS: nat := 887285111055

  lemma SmallMultiple(d: int, k: int)
    requires d == k * TWO_64 && d < TWO_64 && d + TWO_64 > 0
    ensures d == 0
  {
  }

  lemma XorStep(width: nat, a: nat, b: nat, x: nat, y: nat)
    requires x < 2 && y < 2
    ensures Xor(width + 1, 2 * a + x, 2 * b + y) == (if x == y then 0 else 1) + 2 * Xor(width, a, b)
  {
    assert (2 * a + x) / 2 == a && (2 * a + x) % 2 == x && (2 * b + y) / 2 == b && (2 * b + y) % 2 == y;
  }

  lemma Bits(a: nat) returns (half: nat, bit: nat)
    ensures a == 2 * half + bit && bit < 2
  {
    half, bit := a / 2, a % 2;
  }

  lemma {:induction false} XorSwap(width: nat, a: nat, b: nat)
    ensures Xor(width, a, b) == Xor(width, b, a)
  {
    if width != 0 {
      XorSwap(width - 1, a / 2, b / 2);
    }
  }

  lemma {:induction false} XorUndone(width: nat, a: nat, b: nat)
    requires a < Pow2(width)
    ensures Xor(width, Xor(width, a, b), b) == a
  {
    if width != 0 {
      var c, x := Bits(a);
      var d, y := Bits(b);
      XorUndone(width - 1, c, d);
      XorStep(width - 1, c, d, x, y);
      XorStep(width - 1, Xor(width - 1, c, d), d, if x == y then 0 else 1, y);
    }
  }

  lemma XorInjective(a: Byte, b: Byte, c: Byte)
    ensures Xor8(a, b) == Xor8(a, c) ==> b == c
    ensures Xor8(a, c) == Xor8(b, c) ==> a == b
  {
    assert Pow2(8) == 256;
    XorUndone(8, a, c);
    XorUndone(8, b, c);
    XorUndone(8, b, a);
    XorUndone(8, c, a);
    XorSwap(8, a, b);
    XorSwap(8, a, c);
  }

  lemma LowByte(g: nat, h: nat, p: Byte, q: Byte)
    requires g / 256 * 256 + p == h / 256 * 256 + q
    ensures g / 256 == h / 256 && p == q
  {
  }

  lemma WithLowByte(h: nat, p: Byte)
    requires h < TWO_64
    ensures h / 256 * 256 + p < TWO_64
  {
  }

  /** A different byte, or a different state, gives a different state. */
  lemma MixInjective(g: nat, h: nat, b: Byte, c: Byte)
    requires g < TWO_64 && h < TWO_64 && (g == h) != (b == c)
    ensures Mix(g, b) != Mix(h, c)
  {
    XorInjective(g % 256, b, c);
    XorInjective(g % 256, h % 256, b);
    assert g == g / 256 * 256 + g % 256 && h == h / 256 * 256 + h % 256;
    var p, x := MixedFrom(g, b);
    var q, y := MixedFrom(h, c);
    if Mix(g, b) == Mix(h, c) {
      MultiplyInjective(x, y);
      LowByte(g, h, p, q);
      assert false;
    }
  }

  lemma MixedFrom(h: nat, b: Byte) returns (low: Byte, x: nat)
    requires h < TWO_64
    ensures low == Xor8(h % 256, b) && x == h / 256 * 256 + low && x < TWO_64 && Mix(h, b) == x * 1099511628211 % TWO_64
  {
    low := Xor8(h % 256, b);
    x := h / 256 * 256 + low;
    WithLowByte(h, low);
  }

  /** Changing one byte changes the checksum. */
  lemma {:induction false} ChecksumSeesByte(s: Bytes, i: nat, b: Byte)
    requires i < |s| && b != s[i]
    ensures Checksum(s[i := b]) != Checksum(s)
  {
    var last := |s| - 1;
    var t := s[i := b];
    if i == last {
      assert t[..last] == s[..last];
      MixInjective(Checksum(s[..last]), Checksum(s[..last]), b, s[last]);
    } else {
      assert t[..last] == s[..last][i := b];
      ChecksumSeesByte(s[..last], i, b);
      MixInjective(Checksum(t[..last]), Checksum(s[..last]), s[last], s[last]);
    }
  }

  lemma {:induction false} XorKnown(width: nat, a: nat)
    requires a < Pow2(width)
    ensures Xor(width, a, 0) == a && Xor(width, a, a) == 0
  {
    if width != 0 {
      XorKnown(width - 1, a / 2);
    }
  }

  /**
   * Two bytes whose effect shows what a step does: a zero byte leaves the state as it is, the state's own
   * low byte clears that byte, and then the state is multiplied.
   */
  lemma ChecksumSteps(s: Bytes, h: nat)
    requires h == Checksum(s)
    ensures s == [] ==> h == 1469598103934665603
    ensures Checksum(s + [0]) == h * 1099511628211 % 0x1_0000_0000_0000_0000
    ensures Checksum(s + [h % 256]) == (h - h % 256) * 1099511628211 % 0x1_0000_0000_0000_0000
  {
    MixKnown(h);
    ChecksumAppend(s, 0);
    ChecksumAppend(s, h % 256);
  }

  lemma ChecksumAppend(s: Bytes, b: Byte)
    ensures Checksum(s + [b]) == Mix(Checksum(s), b)
  {
    assert (s + [b])[..|s|] == s;
  }

  lemma MixKnown(h: nat)
    ensures Mix(h, 0) == h * 1099511628211 % TWO_64 && Mix(h, h % 256) == (h - h % 256) * 1099511628211 % TWO_64
  {
    assert Pow2(8) == 256;
    XorKnown(8, h % 256);
    assert h / 256 * 256 + h % 256 == h;
  }
}
