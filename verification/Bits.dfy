/** Machine words as bounded naturals, with C's bitwise operators defined bit by bit.

The packing and unpacking code of the firmware is written with `&`, `|`, `<<` and `>>`. Here these are
recursive functions on naturals, so the models below use the operators the code uses; the lemmas say when
an operator has an arithmetic meaning. */
module Bits {
  type Byte = b: int | 0 <= b < 0x100
  type Word = w: int | 0 <= w < 0x1_0000

  const TWO_32: nat := 0x1_0000_0000

  function Pow2(n: nat): (p: nat)
    ensures p >= 1
  {
    if n == 0 then 1 else 2 * Pow2(n - 1)
  }

  function And(a: nat, b: nat): (r: nat)
    ensures r <= a && r <= b
    decreases a
  {
    if a == 0 || b == 0 then 0
    else 2 * And(a / 2, b / 2) + (if a % 2 == 1 && b % 2 == 1 then 1 else 0)
  }

  function Or(a: nat, b: nat): (r: nat)
    ensures a <= r && b <= r <= a + b
    decreases a
  {
    if a == 0 then b
    else if b == 0 then a
    else 2 * Or(a / 2, b / 2) + (if a % 2 == 1 || b % 2 == 1 then 1 else 0)
  }

  function Shl(a: nat, k: nat): nat {
    if k == 0 then a else 2 * Shl(a, k - 1)
  }

  function Shr(a: nat, k: nat): nat {
    if k == 0 then a else Shr(a / 2, k - 1)
  }

  /** Halving commutes with reduction modulo a power of two. */
  lemma HalveMod(a: nat, m: nat)
    requires m > 0
    ensures a % (2 * m) == 2 * ((a / 2) % m) + a % 2
  {
    var h := a / 2;
    var q, r := h / m, h % m;
    assert h == q * m + r;
    var s := 2 * r + a % 2;
    assert a == 2 * h + a % 2;
    assert a == q * (2 * m) + s;
    assert 0 <= s < 2 * m;
    DivModUnique(a, 2 * m, q, s);
  }

  lemma DivModUnique(a: int, m: int, q: int, r: int)
    requires 0 <= r < m && a == q * m + r
    ensures a / m == q && a % m == r
  {
    var dq := a / m - q;
    assert a == (a / m) * m + a % m;
    assert dq * m == r - a % m by {
      assert (a / m) * m == dq * m + q * m;
    }
    SmallMultiple(dq, m);
  }

  lemma SmallMultiple(x: int, m: int)
    requires -m < x * m < m
    ensures x == 0
  {
  }

  /** `a & (2^k - 1)` keeps the k low bits. */
  lemma {:induction false} MaskIsMod(a: nat, k: nat)
    ensures And(a, Pow2(k) - 1) == a % Pow2(k)
    decreases k
  {
    if k == 0 {
    } else if a == 0 {
    } else {
      MaskIsMod(a / 2, k - 1);
      HalveMod(a, Pow2(k - 1));
      assert (Pow2(k) - 1) / 2 == Pow2(k - 1) - 1;
    }
  }

  /** The same with the mask written out: m is 2^k - 1. */
  lemma Mask(a: nat, m: nat, k: nat)
    requires m + 1 == Pow2(k)
    ensures And(a, m) == a % (m + 1)
  {
    MaskIsMod(a, k);
  }

  /** A value within the mask survives it. */
  lemma MaskKeeps(a: nat, m: nat, k: nat)
    requires m + 1 == Pow2(k) && a <= m
    ensures And(a, m) == a
  {
    hide And, Pow2;
    Mask(a, m, k);
    DivModUnique(a, m + 1, 0, a);
  }

  lemma Pow2Values()
    ensures Pow2(1) == 2 && Pow2(2) == 4 && Pow2(3) == 8 && Pow2(4) == 16 && Pow2(5) == 32 && Pow2(6) == 64
    ensures Pow2(7) == 128 && Pow2(8) == 0x100 && Pow2(12) == 0x1000 && Pow2(16) == 0x1_0000 && Pow2(24) == 0x100_0000
  {
  }

  lemma Pow2Of31()
    ensures Pow2(31) == 0x8000_0000
  {
    Pow2Values();
    assert Pow2(25) == 0x200_0000 && Pow2(26) == 0x400_0000 && Pow2(27) == 0x800_0000;
    assert Pow2(28) == 0x1000_0000 && Pow2(29) == 0x2000_0000 && Pow2(30) == 0x4000_0000;
  }

  /** `a | b` is a sum when `a` has no bit below 2^k and `b` none from 2^k up. */
  lemma {:induction false} OrIsSum(a: nat, b: nat, k: nat)
    requires a % Pow2(k) == 0 && b < Pow2(k)
    ensures Or(a, b) == a + b
    decreases k
  {
    if k == 0 || a == 0 || b == 0 {
    } else {
      HalveMod(a, Pow2(k - 1));
      OrIsSum(a / 2, b / 2, k - 1);
    }
  }

  /** A field shifted up by k and a field of k bits are joined without loss. */
  lemma JoinIsSum(hi: nat, lo: nat, k: nat)
    requires lo < Pow2(k)
    ensures Or(Shl(hi, k), lo) == hi * Pow2(k) + lo
    ensures Or(Shl(hi, k), lo) / Pow2(k) == hi && Or(Shl(hi, k), lo) % Pow2(k) == lo
  {
    ShlIsTimes(hi, k);
    DivModUnique(hi * Pow2(k), Pow2(k), hi, 0);
    OrIsSum(hi * Pow2(k), lo, k);
    DivModUnique(hi * Pow2(k) + lo, Pow2(k), hi, lo);
  }

  predicate BitSet(a: nat, k: nat) {
    if k == 0 then a % 2 == 1 else BitSet(a / 2, k - 1)
  }

  /** Testing one bit with `&`. */
  lemma {:induction false} BitTest(a: nat, k: nat)
    ensures And(a, Pow2(k)) == if BitSet(a, k) then Pow2(k) else 0
    decreases k
  {
    if k == 0 {
      assert And(a / 2, 0) == 0;
    } else {
      BitTest(a / 2, k - 1);
      assert Pow2(k) / 2 == Pow2(k - 1) && Pow2(k) % 2 == 0;
    }
  }

  lemma HalveDiv(a: nat, m: nat)
    requires m > 0
    ensures a / (2 * m) == (a / 2) / m
  {
    HalveMod(a, m);
    var h := a / 2;
    assert a == (h / m) * (2 * m) + a % (2 * m) by {
      assert h == (h / m) * m + h % m;
    }
    DivModUnique(a, 2 * m, h / m, a % (2 * m));
  }

  lemma {:induction false} ShlIsTimes(a: nat, k: nat)
    ensures Shl(a, k) == a * Pow2(k)
  {
    if k > 0 {
      ShlIsTimes(a, k - 1);
      DoubleTimes(a, Pow2(k - 1));
    }
  }

  lemma DoubleTimes(a: nat, b: nat)
    ensures 2 * (a * b) == a * (2 * b)
  {
  }

  lemma {:induction false} ShrIsDiv(a: nat, k: nat)
    ensures Shr(a, k) == a / Pow2(k)
    decreases k
  {
    if k > 0 {
      ShrIsDiv(a / 2, k - 1);
      HalveDiv(a, Pow2(k - 1));
    }
  }

  /** Shifting right distributes over `&`. */
  lemma {:induction false} ShrAnd(a: nat, b: nat, k: nat)
    ensures Shr(And(a, b), k) == And(Shr(a, k), Shr(b, k))
    decreases k
  {
    if k > 0 {
      assert And(a, b) / 2 == And(a / 2, b / 2);
      ShrAnd(a / 2, b / 2, k - 1);
    }
  }

  lemma ShrZero(a: nat)
    ensures Shr(a, 0) == a
  {
  }

  lemma {:induction false} ShrHalves(a: nat, k: nat)
    ensures Shr(a, k) / 2 == Shr(a, k + 1)
    decreases k
  {
    if k > 0 {
      ShrHalves(a / 2, k - 1);
    }
  }

  lemma {:induction false} BitSetIs(a: nat, k: nat)
    ensures BitSet(a, k) <==> (a / Pow2(k)) % 2 == 1
    decreases k
  {
    if k > 0 {
      BitSetIs(a / 2, k - 1);
      HalveDiv(a, Pow2(k - 1));
    }
  }

  lemma {:induction false} OrCommutes(a: nat, b: nat)
    ensures Or(a, b) == Or(b, a)
    decreases a
  {
    if a != 0 && b != 0 {
      OrCommutes(a / 2, b / 2);
    }
  }

  /** A one-hot byte has its own bit set and no other. */
  lemma {:induction false} OneHot(k: nat, c: nat)
    ensures BitSet(Shl(1, k), c) <==> k == c
    decreases k
  {
    if k > 0 && c > 0 {
      OneHot(k - 1, c - 1);
    } else if c > 0 {
      NoBits(c - 1);
    }
  }

  lemma {:induction false} NoBits(k: nat)
    ensures !BitSet(0, k)
  {
    if k > 0 {
      NoBits(k - 1);
    }
  }
}
