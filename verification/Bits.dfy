/** Bitwise exclusive or and right shift on unbounded naturals, with the laws that make the
    hash rounds invertible. */
module Bits {

  function Xor(x: nat, y: nat): nat
    decreases x + y
  {
    if x == 0 then y else if y == 0 then x
    else (x + y) % 2 + 2 * Xor(x / 2, y / 2)
  }

  lemma Halves(z: nat, bit: nat, rest: nat)
    requires bit < 2 && z == bit + 2 * rest
    ensures z % 2 == bit && z / 2 == rest
  {
  }

  /** One unfolding, whatever the operands. */
  lemma XorStep(x: nat, y: nat)
    ensures Xor(x, y) % 2 == (x + y) % 2 && Xor(x, y) / 2 == Xor(x / 2, y / 2)
  {
    if x != 0 && y != 0 { Halves(Xor(x, y), (x + y) % 2, Xor(x / 2, y / 2)); }
  }

  lemma {:induction false} XorCommutes(x: nat, y: nat)
    ensures Xor(x, y) == Xor(y, x)
    decreases x + y
  {
    if x != 0 && y != 0 { XorCommutes(x / 2, y / 2); }
  }

  lemma {:induction false} XorAssociates(x: nat, y: nat, z: nat)
    ensures Xor(Xor(x, y), z) == Xor(x, Xor(y, z))
    decreases x + y + z
  {
    if x != 0 && y != 0 && z != 0 {
      var xy, yz := Xor(x, y), Xor(y, z);
      XorStep(x, y);
      XorStep(y, z);
      XorStep(xy, z);
      XorStep(x, yz);
      XorAssociates(x / 2, y / 2, z / 2);
      SameParity(x, y, z, xy, yz);
      SameBits(Xor(xy, z), Xor(x, yz));
    }
  }

  lemma SameParity(x: nat, y: nat, z: nat, xy: nat, yz: nat)
    requires xy % 2 == (x + y) % 2 && yz % 2 == (y + z) % 2
    ensures (xy + z) % 2 == (x + yz) % 2
  {
  }

  lemma SameBits(x: nat, y: nat)
    requires x % 2 == y % 2 && x / 2 == y / 2
    ensures x == y
  {
  }

  lemma {:induction false} XorSelf(x: nat)
    ensures Xor(x, x) == 0
  {
    if x != 0 { XorSelf(x / 2); }
  }

  /** Xor with the same word twice changes nothing. */
  lemma XorCancels(x: nat, y: nat)
    ensures Xor(Xor(x, y), y) == x && Xor(y, Xor(y, x)) == x
  {
    XorAssociates(x, y, y);
    XorAssociates(y, y, x);
    XorSelf(y);
  }

  function Shr(x: nat, k: nat): nat {
    if k == 0 then x else Shr(x / 2, k - 1)
  }

  function Pow(k: nat): (p: nat)
    ensures p > 0
  {
    if k == 0 then 1 else 2 * Pow(k - 1)
  }

  lemma {:induction false} ShrXor(x: nat, y: nat, k: nat)
    ensures Shr(Xor(x, y), k) == Xor(Shr(x, k), Shr(y, k))
    decreases k
  {
    if k != 0 {
      XorStep(x, y);
      ShrXor(x / 2, y / 2, k - 1);
    }
  }

  lemma {:induction false} ShrShr(x: nat, j: nat, k: nat)
    ensures Shr(Shr(x, j), k) == Shr(x, j + k)
    decreases j
  {
    if j != 0 { ShrShr(x / 2, j - 1, k); }
  }

  lemma {:induction false} ShrSmall(x: nat, k: nat)
    requires x < Pow(k)
    ensures Shr(x, k) == 0
    decreases k
  {
    if k != 0 { ShrSmall(x / 2, k - 1); }
  }

  lemma {:induction false} ShrBound(x: nat, k: nat)
    ensures Shr(x, k) <= x
    decreases k
  {
    if k != 0 { ShrBound(x / 2, k - 1); }
  }

  lemma {:induction false} XorBound(x: nat, y: nat, k: nat)
    requires x < Pow(k) && y < Pow(k)
    ensures Xor(x, y) < Pow(k)
    decreases k
  {
    if k != 0 && x != 0 && y != 0 { XorBound(x / 2, y / 2, k - 1); }
  }
}
