/** What the operator names in the catalog say, read as C operators on integers.  The readings do not
    look at how the pass names an operator or how the machine evaluates it. */
module Readings {
  import opened Scalars
  import opened Bits
  import opened IR
  import opened Mutants

  // ---------------------------------------------------------------- relations

  /** A relational operator of C, applied to two integers. */
  predicate Holds(name: string, x: int, y: int) {
    if |name| == 1 then
      if name[0] == '<' then x < y
      else name[0] == '>' && x > y
    else
      && |name| == 2 && name[1] == '='
      && if name[0] == '=' then x == y
         else if name[0] == '!' then x != y
         else if name[0] == '<' then x <= y
         else name[0] == '>' && x >= y
  }

  predicate UnsignedPred(p: Pred) {
    p == UGT || p == UGE || p == ULT || p == ULE
  }

  /** The integer that a word of width `w` stands for. */
  function View(unsigned: bool, w: nat, x: Word): int {
    if unsigned then Wrap(w, x) else Signed(w, x)
  }

  /** The predicate computes the relation that the name stands for. */
  ghost predicate PredSays(name: string, p: Pred, w: nat) {
    forall x: Word, y: Word ::
      PredHolds(p, w, x, y) == Holds(name, View(UnsignedPred(p), w, x), View(UnsignedPred(p), w, y))
  }

  /** The name of a predicate is the relation it computes. */
  lemma PredNameSays(p: Pred, w: nat)
    ensures PredSays(PredName(p), p, w)
  {
    forall x: Word, y: Word
      ensures PredHolds(p, w, x, y) == Holds(PredName(p), View(UnsignedPred(p), w, x), View(UnsignedPred(p), w, y))
    {
      SignedInjective(w, x, y);
    }
  }

  // ---------------------------------------------------------------- division that truncates

  /** `q` is `x / y` in C: rounded toward zero. */
  predicate Truncated(x: int, y: int, q: int) {
    var r := x - q * y;
    y != 0 && Abs(r) < Abs(y) && (x >= 0 ==> r >= 0) && (x <= 0 ==> r <= 0)
  }

  /** Quotient and remainder belong together. */
  lemma QuotRem(x: int, y: int)
    requires y != 0
    ensures Quot(x, y) * y + Rem(x, y) == x && Truncated(x, y, Quot(x, y))
  {
    var q: int, r: int := Abs(x) / Abs(y), Abs(x) % Abs(y);
    Divided(Abs(x), Abs(y));
    SignedProduct(q, y, (x < 0) == (y < 0));
    Remains(x, y, q * Abs(y), r, Quot(x, y), Rem(x, y));
  }

  lemma SignedProduct(q: int, y: int, same: bool)
    ensures (if same then q else -q) * y == if same == (y < 0) then -(q * Abs(y)) else q * Abs(y)
  {
    Signs(q, y);
    if y < 0 {
      assert q * Abs(y) == q * (-y);
    }
  }

  lemma Remains(x: int, y: int, t: int, r: int, quot: int, rem: int)
    requires 0 <= r < Abs(y) && t + r == Abs(x) && quot * y == (if x < 0 then -t else t)
    requires rem == if x < 0 then -r else r
    ensures quot * y + rem == x && Truncated(x, y, quot)
  {
  }

  lemma Signs(q: int, b: int)
    ensures (-q) * b == -(q * b) && q * (-b) == -(q * b) && (-q) * (-b) == q * b
  {
  }

  lemma Divided(a: nat, b: nat)
    requires b > 0
    ensures a == a / b * b + a % b && a % b < b
  {
  }

  // ---------------------------------------------------------------- arithmetic

  predicate UnsignedOp(op: BinOp) {
    op == UDiv || op == URem
  }

  /** `z` is the value of a C arithmetic operator on two integers. */
  predicate Gives(name: string, x: int, y: int, z: int) {
    && |name| == 1
    && if name[0] == '+' then z == x + y
       else if name[0] == '-' then z == x - y
       else if name[0] == '*' then z == x * y
       else if name[0] == '/' then Truncated(x, y, z)
       else name[0] == '%' && y != 0 && Abs(z) < Abs(y) && (x >= 0 ==> z >= 0) && (x <= 0 ==> z <= 0)
            && (x - z) % Abs(y) == 0
  }

  /** Bit `k` of a number. */
  predicate Bit(n: nat, k: nat) {
    if k == 0 then n % 2 == 1 else Bit(n / 2, k - 1)
  }

  /** `r` is what the operator called `name` gives on words of width `w`: for `&&` and `||` on truth
      values, for `&` and `|` bit by bit, and else on integers, wrapped. */
  ghost predicate WordGives(name: string, unsigned: bool, w: nat, x: Word, y: Word, r: Word) {
    if name == "&&" then r <= 1 && (r != 0 <==> Wrap(w, x) != 0 && Wrap(w, y) != 0)
    else if name == "||" then r <= 1 && (r != 0 <==> Wrap(w, x) != 0 || Wrap(w, y) != 0)
    else if name == "&" then forall k: nat :: Bit(r, k) <==> Bit(Wrap(w, x), k) && Bit(Wrap(w, y), k)
    else if name == "|" then forall k: nat :: Bit(r, k) <==> Bit(Wrap(w, x), k) || Bit(Wrap(w, y), k)
    else exists z :: Gives(name, View(unsigned, w, x), View(unsigned, w, y), z) && r == Wrap(w, z)
  }

  /** The operation computes what the name stands for, whenever it has a value. */
  ghost predicate BinSays(name: string, op: BinOp, w: nat) {
    forall x: Word, y: Word, r: Word ::
      EvalBin(op, w, x, y) == Some(r) ==> WordGives(name, UnsignedOp(op), w, x, y, r)
  }

  lemma Grows(m: int, p: int)
    requires m >= 1 && p >= 0
    ensures m * p >= p
  {
    assert m * p == (m - 1) * p + p;
  }

  /** The only multiple of `p` between `-p` and `p` is 0. */
  lemma NoMultiple(m: int, p: int, d: int)
    requires m * p == d && -p < d < p
    ensures m == 0
  {
    if m > 0 { Grows(m, p); }
    if m < 0 {
      Signs(m, p);
      Grows(-m, p);
    }
  }

  lemma Factor(i: int, j: int, p: int)
    ensures (i + j) * p == i * p + j * p && (i - j) * p == i * p - j * p
  {
  }

  lemma ModUnique(a: int, p: nat, q: int, r: nat)
    requires a == q * p + r && r < p
    ensures a % p == r
  {
    var k := a / p;
    Factor(q, k, p);
    NoMultiple(q - k, p, a % p - r);
  }

  /** Words that differ by a multiple of the modulus are the same word. */
  lemma Congruent(w: nat, a: int, b: int, i: int)
    requires a == b + i * Pow(w)
    ensures Wrap(w, a) == Wrap(w, b)
  {
    var p, q := Pow(w), b / Pow(w);
    assert b == q * p + b % p;
    assert a == (q + i) * p + b % p;
    ModUnique(a, p, q + i, b % p);
  }

  /** The signed view of a word is the word, up to a multiple of the modulus. */
  lemma Viewed(w: nat, x: Word) returns (i: int)
    ensures Signed(w, x) == x + i * Pow(w)
  {
    var p := Pow(w);
    assert x == x / p * p + x % p;
    i := if 2 * Wrap(w, x) < p then -(x / p) else -(x / p) - 1;
  }

  lemma Wrapped(w: nat, x: nat)
    requires x < Pow(w)
    ensures Wrap(w, x) == x
  {
    ModUnique(x, Pow(w), 0, x);
  }

  lemma SumSays(w: nat, x: Word, y: Word)
    ensures Wrap(w, x + y) == Wrap(w, Signed(w, x) + Signed(w, y))
    ensures Wrap(w, x - y) == Wrap(w, Signed(w, x) - Signed(w, y))
  {
    var i := Viewed(w, x);
    var j := Viewed(w, y);
    Factor(i, j, Pow(w));
    Congruent(w, Signed(w, x) + Signed(w, y), x + y, i + j);
    Congruent(w, Signed(w, x) - Signed(w, y), x - y, i - j);
  }

  lemma ProductSays(w: nat, x: Word, y: Word)
    ensures Wrap(w, x * y) == Wrap(w, Signed(w, x) * Signed(w, y))
  {
    var i := Viewed(w, x);
    var j := Viewed(w, y);
    Products(x, y, i, j, Pow(w));
    Congruent(w, Signed(w, x) * Signed(w, y), x * y, x * j + i * y + i * j * Pow(w));
  }

  lemma Products(x: int, y: int, i: int, j: int, p: int)
    ensures (x + i * p) * (y + j * p) == x * y + (x * j + i * y + i * j * p) * p
  {
    calc {
      (x + i * p) * (y + j * p);
      x * (y + j * p) + i * p * (y + j * p);
      x * y + x * (j * p) + (i * p * y + i * p * (j * p));
      { assert x * (j * p) == x * j * p && i * p * y == i * y * p && i * p * (j * p) == i * j * p * p; }
      x * y + x * j * p + i * y * p + i * j * p * p;
      x * y + (x * j + i * y + i * j * p) * p;
    }
  }

  lemma ModZero(z: int, p: nat, k: int)
    requires p > 0 && z == k * p
    ensures z % p == 0
  {
    ModUnique(z, p, k, 0);
  }

  lemma RemGives(x: int, y: int)
    requires y != 0
    ensures Gives("%", x, y, Rem(x, y))
  {
    QuotRem(x, y);
    var q := Quot(x, y);
    assert x - Rem(x, y) == q * y;
    if y > 0 {
      ModZero(x - Rem(x, y), Abs(y), q);
    } else {
      assert q * y == (-q) * Abs(y);
      ModZero(x - Rem(x, y), Abs(y), -q);
    }
  }

  lemma Shrinks(a: nat, b: nat, q: nat)
    requires b > 0 && q * b <= a
    ensures q <= a
  {
    assert q * b == q * (b - 1) + q && q * (b - 1) >= 0;
  }

  lemma UnsignedDivides(w: nat, x: Word, y: Word)
    requires Wrap(w, y) != 0
    ensures var a, b := Wrap(w, x), Wrap(w, y);
            && Gives("/", a, b, a / b) && Wrap(w, a / b) == a / b
            && Gives("%", a, b, a % b) && Wrap(w, a % b) == a % b
  {
    var a, b := Wrap(w, x), Wrap(w, y);
    Divided(a, b);
    Shrinks(a, b, a / b);
    Wrapped(w, a / b);
    Wrapped(w, a % b);
    ModZero(a - a % b, b, a / b);
  }

  lemma {:induction false} AndBits(x: nat, y: nat, k: nat)
    ensures Bit(BitAnd(x, y), k) <==> Bit(x, k) && Bit(y, k)
    decreases k
  {
    if x == 0 || y == 0 {
      NoBits(k);
    } else {
      Halves(BitAnd(x, y), (x % 2) * (y % 2), BitAnd(x / 2, y / 2));
      if k > 0 { AndBits(x / 2, y / 2, k - 1); }
    }
  }

  lemma {:induction false} OrBits(x: nat, y: nat, k: nat)
    ensures Bit(BitOr(x, y), k) <==> Bit(x, k) || Bit(y, k)
    decreases k
  {
    if x == 0 || y == 0 {
      NoBits(k);
    } else {
      Halves(BitOr(x, y), if x % 2 == 1 || y % 2 == 1 then 1 else 0, BitOr(x / 2, y / 2));
      if k > 0 { OrBits(x / 2, y / 2, k - 1); }
    }
  }

  lemma Parity(x: nat, y: nat)
    ensures (x + y) % 2 == 1 <==> (x % 2 == 1) != (y % 2 == 1)
  {
  }

  /** The operation that has no replacement. */
  lemma {:induction false} XorBits(x: nat, y: nat, k: nat)
    ensures Bit(Bits.Xor(x, y), k) <==> Bit(x, k) != Bit(y, k)
    decreases k
  {
    if x == 0 || y == 0 {
      NoBits(k);
    } else {
      Halves(Bits.Xor(x, y), (x + y) % 2, Bits.Xor(x / 2, y / 2));
      Parity(x, y);
      if k > 0 { XorBits(x / 2, y / 2, k - 1); }
    }
  }

  lemma {:induction false} NoBits(k: nat)
    ensures !Bit(0, k)
  {
    if k > 0 { NoBits(k - 1); }
  }

  lemma LogicSays(w: nat, x: Word, y: Word)
    ensures w == 1 ==> WordGives("&&", false, w, x, y, BitAnd(Wrap(w, x), Wrap(w, y)))
    ensures w == 1 ==> WordGives("||", false, w, x, y, BitOr(Wrap(w, x), Wrap(w, y)))
    ensures WordGives("&", false, w, x, y, BitAnd(Wrap(w, x), Wrap(w, y)))
    ensures WordGives("|", false, w, x, y, BitOr(Wrap(w, x), Wrap(w, y)))
  {
    var a, b := Wrap(w, x), Wrap(w, y);
    if w == 1 {
      assert Pow(1) == 2 && a < 2 && b < 2;
      assert BitAnd(a / 2, b / 2) == 0 && BitOr(a / 2, b / 2) == 0;
    }
    forall k: nat
      ensures Bit(BitAnd(a, b), k) <==> Bit(a, k) && Bit(b, k)
      ensures Bit(BitOr(a, b), k) <==> Bit(a, k) || Bit(b, k)
    {
      AndBits(a, b, k);
      OrBits(a, b, k);
    }
  }

  lemma ValueSays(op: BinOp, w: nat, x: Word, y: Word, r: Word)
    requires op != Xor && EvalBin(op, w, x, y) == Some(r)
    ensures WordGives(BinName(op, w), UnsignedOp(op), w, x, y, r)
  {
    var a, b := Signed(w, x), Signed(w, y);
    match op
    case Add =>
      SumSays(w, x, y);
      assert Gives("+", a, b, a + b);
    case Sub =>
      SumSays(w, x, y);
      assert Gives("-", a, b, a - b);
    case Mul =>
      ProductSays(w, x, y);
      assert Gives("*", a, b, a * b);
    case SDiv =>
      QuotRem(a, b);
      assert Gives("/", a, b, Quot(a, b));
    case SRem => RemGives(a, b);
    case UDiv => UnsignedDivides(w, x, y);
    case URem => UnsignedDivides(w, x, y);
    case And => LogicSays(w, x, y);
    case Or => LogicSays(w, x, y);
  }

  /** The name of an operation is what it computes. */
  lemma BinNameSays(op: BinOp, w: nat)
    requires op != Xor
    ensures BinSays(BinName(op, w), op, w)
  {
    forall x: Word, y: Word, r: Word | EvalBin(op, w, x, y) == Some(r)
      ensures WordGives(BinName(op, w), UnsignedOp(op), w, x, y, r)
    {
      ValueSays(op, w, x, y, r);
    }
  }

  /** Twice the integer lies in the range of signed words of width `w`, doubled. */
  predicate FitsSigned(w: nat, z: int) {
    2 * z + Pow(w) >= 0 && 2 * z < Pow(w)
  }

  /** Signed words are in range and stand for themselves. */
  lemma SignedExact(w: nat, x: Word)
    ensures FitsSigned(w, Signed(w, x)) && Wrap(w, Signed(w, x)) == Wrap(w, x)
  {
    var i := Viewed(w, x);
    Congruent(w, Signed(w, x), x, i);
  }

  /** A quotient is smaller than the dividend, unless the divisor is 1 or -1. */
  lemma QuotientShrinks(x: int, y: int)
    requires y != 0
    ensures Abs(y) == 1 ==> Quot(x, y) == x * y
    ensures Abs(y) > 1 ==> 2 * Abs(Quot(x, y)) <= Abs(x)
  {
    var a: int, b: int := Abs(x), Abs(y);
    Divided(a, b);
    if b > 1 {
      HalfAtMost(a, b, a / b);
    } else {
      assert a / b == a;
    }
  }

  lemma HalfAtMost(a: nat, b: nat, q: nat)
    requires b > 1 && q * b <= a
    ensures 2 * q <= a
  {
    assert q * b == q * (b - 2) + 2 * q && q * (b - 2) >= 0;
  }

  /** An operation has a value unless it divides by zero, or is signed and the quotient does not fit. */
  lemma DefinedExactly(op: BinOp, w: nat, x: Word, y: Word)
    ensures op == SDiv || op == SRem ==>
              (EvalBin(op, w, x, y).Some? <==>
                 Signed(w, y) != 0 && FitsSigned(w, Quot(Signed(w, x), Signed(w, y))))
    ensures op == UDiv || op == URem ==> (EvalBin(op, w, x, y).Some? <==> Wrap(w, y) != 0)
    ensures op !in {SDiv, SRem, UDiv, URem} ==> EvalBin(op, w, x, y).Some?
  {
    if Signed(w, y) != 0 {
      QuotientShrinks(Signed(w, x), Signed(w, y));
      SignedExact(w, x);
    }
  }

  /** Which names replace which, and that a division or remainder put in place of another keeps its
      signedness; the division put in place of a product is signed. */
  lemma ArithmeticAlternatives(op: BinOp, w: nat)
    ensures var name, alts := BinName(op, w), BinAlts(op, w);
            var names := seq(|alts|, k requires 0 <= k < |alts| => BinName(alts[k].op, w));
            && (op == Add ==> name == "+" && names == ["-", "*"])
            && (op == Sub ==> name == "-" && names == ["+", "*"])
            && (op == Mul ==> name == "*" && names == ["/", "+"])
            && (op == SDiv || op == UDiv ==> name == "/" && names == ["*", "-"])
            && (op == SRem || op == URem ==> name == "%" && names == ["/", "*"])
            && (op == And && w != 1 ==> name == "&" && names == ["|"])
            && (op == Or && w != 1 ==> name == "|" && names == ["&"])
            && (op == And && w == 1 ==> name == "&&" && names == ["||"])
            && (op == Or && w == 1 ==> name == "||" && names == ["&&"])
            && (op == Xor ==> names == [])
            && forall k :: 0 <= k < |alts| ==>
                 && alts[k].kind == (if op != And && op != Or then "AOR" else if w == 1 then "LCR" else "BOR")
                 && (names[k] == "/" || names[k] == "%" ==> UnsignedOp(alts[k].op) == UnsignedOp(op))
  {
  }
}
