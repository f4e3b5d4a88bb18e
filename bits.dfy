/**
 * Java's bitwise operators on the non-negative ints the emulator feeds
 * them (register values, addresses and 16-bit opcodes), defined bit by bit
 * on naturals, and the mask facts that decoding an opcode relies on.
 */
module Bits {
  function Pow2(n: nat): (p: nat)
    ensures p >= 1
  {
    if n == 0 then 1 else 2 * Pow2(n - 1)
  }

  /** x & y */
  function BitAnd(x: nat, y: nat): (r: nat)
    ensures r <= x && r <= y
  {
    if x == 0 || y == 0 then 0
    else 2 * BitAnd(x / 2, y / 2) + (if x % 2 == 1 && y % 2 == 1 then 1 else 0)
  }

  /** x | y */
  function BitOr(x: nat, y: nat): (r: nat)
    ensures x <= r && y <= r && r <= x + y
  {
    if x == 0 then y
    else if y == 0 then x
    else 2 * BitOr(x / 2, y / 2) + (if x % 2 == 1 || y % 2 == 1 then 1 else 0)
  }

  /** x ^ y */
  function BitXor(x: nat, y: nat): (r: nat)
    ensures r <= x + y
  {
    if x == 0 then y
    else if y == 0 then x
    else 2 * BitXor(x / 2, y / 2) + (if x % 2 != y % 2 then 1 else 0)
  }

  /** Both operands below 2^n: so is their bitwise or. */
  lemma {:induction false} BitOrBelow(x: nat, y: nat, n: nat)
    requires x < Pow2(n) && y < Pow2(n)
    ensures BitOr(x, y) < Pow2(n)
  {
    if x != 0 && y != 0 {
      BitOrBelow(x / 2, y / 2, n - 1);
    }
  }

  /** Both operands below 2^n: so is their bitwise exclusive or. */
  lemma {:induction false} BitXorBelow(x: nat, y: nat, n: nat)
    requires x < Pow2(n) && y < Pow2(n)
    ensures BitXor(x, y) < Pow2(n)
  {
    if x != 0 && y != 0 {
      BitXorBelow(x / 2, y / 2, n - 1);
    }
  }

  /** Or-ing bits below a shifted value adds them: (a << k) | b == (a << k) + b when b < 2^k. */
  lemma {:induction false} OrLowBits(a: nat, b: nat, k: nat)
    requires b < Pow2(k)
    ensures BitOr(a * Pow2(k), b) == a * Pow2(k) + b
  {
    if k > 0 && a != 0 && b != 0 {
      var w := a * Pow2(k);
      assert w == 2 * (a * Pow2(k - 1));
      DivModUnique(w, 2, a * Pow2(k - 1), 0);
      OrLowBits(a, b / 2, k - 1);
    }
  }

  lemma DivModUnique(w: int, d: int, k: int, m: int)
    requires d > 0 && 0 <= m < d && w == d * k + m
    ensures w / d == k && w % d == m
  {
    var q, r := w / d, w % d;
    assert d * (k - q) == r - m;
    if k - q >= 1 {
      MulAtLeast(d, k - q);
    } else if k - q <= -1 {
      MulAtLeast(d, q - k);
    }
  }

  lemma {:induction false} MulAtLeast(d: nat, t: nat)
    requires t >= 1
    ensures d * t >= d
  {
    if t > 1 {
      MulAtLeast(d, t - 1);
      assert d * t == d * (t - 1) + d;
    }
  }

  /** Dividing by 2p is halving and then dividing by p. */
  lemma HalveDivMod(w: nat, p: nat)
    requires p >= 1
    ensures w / (2 * p) == (w / 2) / p
    ensures w % (2 * p) == 2 * ((w / 2) % p) + w % 2
  {
    var h := w / 2;
    assert w == (2 * p) * (h / p) + (2 * (h % p) + w % 2);
    DivModUnique(w, 2 * p, h / p, 2 * (h % p) + w % 2);
  }

  /** x & (2^b - 1) keeps the b low bits. */
  lemma {:induction false} LowMask(w: nat, b: nat)
    ensures BitAnd(w, Pow2(b) - 1) == w % Pow2(b)
  {
    if b == 0 {
      assert Pow2(b) - 1 == 0;
    } else if w != 0 {
      var p := Pow2(b - 1);
      var m := Pow2(b) - 1;
      assert Pow2(b) == 2 * p;
      DivModUnique(m, 2, p - 1, 1);
      calc {
        BitAnd(w, m);
        2 * BitAnd(w / 2, p - 1) + w % 2;
        { LowMask(w / 2, b - 1); }
        2 * ((w / 2) % p) + w % 2;
        { HalveDivMod(w, p); }
        w % (2 * p);
      }
    }
  }

  /** x & ((2^b - 1) << a) keeps the b bits starting at bit a, in place. */
  lemma {:induction false} FieldMask(w: nat, a: nat, b: nat)
    ensures BitAnd(w, (Pow2(b) - 1) * Pow2(a)) == (w / Pow2(a)) % Pow2(b) * Pow2(a)
  {
    if a == 0 {
      LowMask(w, b);
    } else {
      var p := Pow2(a - 1);
      MaskHalves(a, b);
      BitAndEvenMask(w, (Pow2(b) - 1) * p);
      FieldMask(w / 2, a - 1, b);
      HalveDivMod(w, p);
      Twice((w / 2) / p % Pow2(b), p);
    }
  }

  lemma MaskHalves(a: nat, b: nat)
    requires a > 0
    ensures (Pow2(b) - 1) * Pow2(a) == 2 * ((Pow2(b) - 1) * Pow2(a - 1))
  {
    var m := Pow2(b) - 1;
    assert m * Pow2(a) == m * (2 * Pow2(a - 1));
  }

  lemma Twice(f: int, p: int)
    ensures 2 * (f * p) == f * (2 * p)
  {
  }

  /** An even mask sees the operand shifted right by one. */
  lemma BitAndEvenMask(w: nat, n: nat)
    ensures BitAnd(w, 2 * n) == 2 * BitAnd(w / 2, n)
  {
    if w != 0 && n != 0 {
      assert (2 * n) / 2 == n && (2 * n) % 2 == 0;
    }
  }

  /** Bit k of w is set exactly when w & (1 << k) is not zero. */
  lemma SingleBitMask(w: nat, k: nat)
    ensures BitAnd(w, Pow2(k)) == (w / Pow2(k)) % 2 * Pow2(k)
  {
    var p := Pow2(k);
    assert Pow2(1) == 2;
    assert (Pow2(1) - 1) * p == p;
    FieldMask(w, k, 1);
  }
}
