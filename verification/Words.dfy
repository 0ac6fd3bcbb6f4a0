/** Machine words as natural numbers: the shifts and bitwise operators of the C macros that
    build and take apart addresses and page-table entries. */
module Words {
  import opened Common

  const WORD := 0x1_0000_0000_0000_0000 // 2^64

  function Shr(x: nat, k: nat): nat {
    Quotient(x, Mask(k))
  }

  function Quotient(x: nat, d: nat): nat
    requires d > 0
  {
    x / d
  }

  function Shl(x: nat, k: nat): nat {
    x * Mask(k) % WORD
  }

  /** `x | y`, bit by bit. */
  function Or(x: nat, y: nat): nat
    decreases x + y
  {
    if x == 0 && y == 0 then 0 else 2 * Or(x / 2, y / 2) + if x % 2 == 1 || y % 2 == 1 then 1 else 0
  }

  /** `x & y`, bit by bit. */
  function And(x: nat, y: nat): nat {
    if x == 0 || y == 0 then 0 else 2 * And(x / 2, y / 2) + if x % 2 == 1 && y % 2 == 1 then 1 else 0
  }

  /** `~y` on words of n bits. */
  function Not(y: nat, n: nat): nat {
    if y < Mask(n) then Mask(n) - 1 - y else 0
  }

  lemma {:induction false} OrZero(x: nat)
    ensures Or(x, 0) == x
  {
    if x != 0 {
      OrZero(x / 2);
    }
  }

  /** Below k clear bits `|` puts in what `+` would. */
  lemma {:induction false} OrLow(x: nat, f: nat, k: nat)
    requires f < Mask(k)
    ensures Or(x * Mask(k), f) == x * Mask(k) + f
  {
    if k == 0 {
      OrZero(x);
    } else {
      var h := x * Mask(k - 1);
      assert x * Mask(k) == 2 * h;
      OrLow(x, f / 2, k - 1);
    }
  }

  lemma OrOne(x: nat)
    ensures Or(x, 1) == if x % 2 == 1 then x else x + 1
  {
    OrZero(x / 2);
  }

  lemma ModIs(x: nat, d: nat, q: nat, r: nat)
    requires x == d * q + r && r < d
    ensures x % d == r
  {
    var p := x / d;
    assert p < q ==> d * q >= d * (p + 1);
    assert p > q ==> d * p >= d * (q + 1);
  }

  lemma HalfMod(x: nat, d: nat)
    requires d > 0
    ensures x % (2 * d) == 2 * (x / 2 % d) + x % 2
  {
    var q, r := x / 2 / d, x / 2 % d;
    assert x == 2 * d * q + (2 * r + x % 2);
    ModIs(x, 2 * d, q, 2 * r + x % 2);
  }

  lemma AndOdd(x: nat, y: nat)
    ensures And(x, 2 * y + 1) == 2 * And(x / 2, y) + x % 2
  {
  }

  /** The k low bits are the remainder. */
  lemma {:induction false} AndLow(x: nat, k: nat)
    ensures And(x, Mask(k) - 1) == x % Mask(k)
  {
    if k > 0 {
      var d := Mask(k - 1);
      AndLow(x / 2, k - 1);
      HalfMod(x, d);
      AndOdd(x, d - 1);
    }
  }

  lemma Masks()
    ensures Mask(1) == 2 && Mask(9) == 512 && Mask(10) == 1024 && Mask(12) == 4096
    ensures Mask(21) == 512 * 4096 && Mask(30) == 512 * 512 * 4096
  {
    assert Mask(3) == 8 && Mask(6) == 64;
    assert Mask(15) == 32768 && Mask(18) == 262144;
    assert Mask(24) == 64 * Mask(18) && Mask(27) == 8 * Mask(24);
  }

  /** The shifts by a page offset, by the flags of an entry, and by the indices. */
  lemma Shifts(x: nat)
    ensures Shr(x, 12) == x / 4096 && Shr(x, 10) == x / 1024 && Shl(x, 10) == x * 1024 % WORD && Shl(x, 12) == x * 4096 % WORD
  {
    Masks();
  }

  lemma IndexShifts(x: nat, k: nat)
    requires k <= 2
    ensures Shr(x, 12 + 9 * k) == if k == 0 then x / 4096 else if k == 1 then x / 4096 / 512 else x / 4096 / 512 / 512
  {
    Masks();
  }

  lemma Low9(x: nat)
    ensures And(x, 0x1ff) == x % 512
  {
    Masks();
    AndLow(x, 9);
  }

  lemma Low10(x: nat)
    ensures And(x, 0x3ff) == x % 1024
  {
    Masks();
    AndLow(x, 10);
  }

  lemma Low1(x: nat)
    ensures And(x, 1) == x % 2
  {
    Masks();
    AndLow(x, 1);
  }

  lemma OrFlags(x: nat, f: nat)
    requires f < 1024
    ensures Or(x * 1024, f) == x * 1024 + f
  {
    Masks();
    OrLow(x, f, 10);
  }
}
