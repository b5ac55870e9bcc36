/** The ids of the mutants of some small functions in a file `xzvmuux.c`, computed round by round. */
module KnownIds {
  import opened Scalars
  import opened Bits
  import opened Text
  import opened Hash
  import opened Keys

  // ---------------------------------------------------------------- exclusive or, digit by digit

  lemma XorBit(p: nat, q: nat, a: nat, b: nat)
    requires a < 2 && b < 2
    ensures Xor(2 * p + a, 2 * q + b) == 2 * Xor(p, q) + if a == b then 0 else 1
  {
    var x, y := 2 * p + a, 2 * q + b;
    Halves(x, a, p);
    Halves(y, b, q);
    Halves(x + y, if a == b then 0 else 1, if a == 1 && b == 1 then p + q + 1 else p + q);
    XorStep(x, y);
  }

  /** Exclusive or of two base-4 digits. */
  function XorDigit(a: nat, b: nat): nat {
    if a == b then 0 else if a == 0 then b else if b == 0 then a else if a + b <= 6 then 6 - a - b else 0
  }

  function High(a: nat): nat {
    if a < 2 then 0 else 1
  }

  function Low(a: nat): nat {
    if a == 0 || a == 2 then 0 else 1
  }

  lemma XorTop(p: nat, q: nat, a: nat, b: nat)
    requires a < 4 && b < 4
    ensures Xor(4 * p + a, 4 * q + b) == 4 * Xor(p, q) + XorDigit(a, b)
  {
    var x, y := 2 * p + High(a), 2 * q + High(b);
    XorBit(x, y, Low(a), Low(b));
    XorBit(p, q, High(a), High(b));
    assert 2 * x + Low(a) == 4 * p + a && 2 * y + Low(b) == 4 * q + b;
    DigitBits(a, b);
  }

  lemma DigitBits(a: nat, b: nat)
    requires a < 4 && b < 4
    ensures XorDigit(a, b) == 2 * (if High(a) == High(b) then 0 else 1) + if Low(a) == Low(b) then 0 else 1
  {
  }

  lemma XorPairs(p: nat, q: nat, a: nat, b: nat, c: nat, d: nat)
    requires a < 4 && b < 4 && c < 4 && d < 4
    ensures Xor(16 * p + (4 * a + b), 16 * q + (4 * c + d)) == 16 * Xor(p, q) + (4 * XorDigit(a, c) + XorDigit(b, d))
  {
    var x, y := 4 * p + a, 4 * q + c;
    XorTop(p, q, a, c);
    XorTop(x, y, b, d);
    Rearranged(p, a, b, x);
    Rearranged(q, c, d, y);
  }

  lemma Rearranged(p: nat, a: nat, b: nat, x: nat)
    requires x == 4 * p + a
    ensures 16 * p + (4 * a + b) == 4 * x + b
  {
  }

  /** A byte from its base-4 digits. */
  function Quad(a: nat, b: nat, c: nat, d: nat): nat {
    64 * a + 16 * b + 4 * c + d
  }

  lemma XorByte(q: nat, a: nat, b: nat, c: nat, d: nat, e: nat, f: nat, g: nat, h: nat)
    requires a < 4 && b < 4 && c < 4 && d < 4 && e < 4 && f < 4 && g < 4 && h < 4
    ensures Xor(256 * q + Quad(a, b, c, d), Quad(e, f, g, h)) ==
            256 * q + Quad(XorDigit(a, e), XorDigit(b, f), XorDigit(c, g), XorDigit(d, h))
  {
    var p, r := 16 * q + (4 * a + b), 4 * e + f;
    XorPairs(p, r, c, d, g, h);
    XorPairs(q, 0, a, b, e, f);
    XorZero(q);
    assert 16 * p + (4 * c + d) == 256 * q + Quad(a, b, c, d);
    assert 16 * r + (4 * g + h) == Quad(e, f, g, h);
  }

  lemma XorZero(q: nat)
    ensures Xor(q, 0) == q
  {
  }

  // ---------------------------------------------------------------- rounds

  /** `step` is one round of the hash; the texts below are hashed without looking into it. */
  ghost predicate IsRound(step: (u32, char) -> u32) {
    forall h, c {:trigger FnvStep(h, c)} :: step(h, c) == FnvStep(h, c)
  }

  function Fold(step: (u32, char) -> u32, h: u32, s: string): u32
    decreases |s|
  {
    if s == "" then h else Fold(step, step(h, s[0]), s[1..])
  }

  lemma {:induction false} FoldIsRaw(step: (u32, char) -> u32, h: u32, s: string)
    requires IsRound(step)
    ensures Fold(step, h, s) == FnvRaw(h, s)
    decreases |s|
  {
    if s != "" {
      assert step(h, s[0]) == FnvStep(h, s[0]);
      FoldIsRaw(step, step(h, s[0]), s[1..]);
    }
  }

  lemma {:induction false} FoldConcat(step: (u32, char) -> u32, h: u32, s: string, t: string)
    ensures Fold(step, h, s + t) == Fold(step, Fold(step, h, s), t)
    decreases |s|
  {
    if s == "" {
      assert s + t == t;
    } else {
      assert (s + t)[1..] == s[1..] + t;
      FoldConcat(step, step(h, s[0]), s[1..], t);
    }
  }

  lemma TimesIs(x: nat, k: nat, r: u32)
    requires x < WORD && x * FNV_PRIME == k * WORD + r
    ensures Times(x, FNV_PRIME) == r
  {
    WrapMultiple(r, k);
  }

  lemma StepFrom(h: u32, c: char, x: nat, k: nat, r: u32)
    requires c as int < 256 && Xor(h, c as int) == x && x * FNV_PRIME == k * WORD + r
    ensures FnvStep(h, c) == r
  {
    assert Byte(c) == c as int && XorWord(h, Byte(c)) == x;
    TimesIs(x, k, r);
  }

  /** The base-4 digits of a byte. */
  datatype Four = Four(a: nat, b: nat, c: nat, d: nat)

  predicate Digits(x: Four) {
    x.a < 4 && x.b < 4 && x.c < 4 && x.d < 4
  }

  function Value(x: Four): nat {
    Quad(x.a, x.b, x.c, x.d)
  }

  function XorFour(x: Four, y: Four): nat {
    Quad(XorDigit(x.a, y.a), XorDigit(x.b, y.b), XorDigit(x.c, y.c), XorDigit(x.d, y.d))
  }

  lemma StepIs(h: u32, c: char, q: nat, x: Four, y: Four, k: nat, r: u32)
    requires Digits(x) && Digits(y) && h == 256 * q + Value(x) && c as int == Value(y)
    requires (256 * q + XorFour(x, y)) * FNV_PRIME == k * WORD + r
    ensures FnvStep(h, c) == r
  {
    XorIs(h, c as int, q, x, y);
    StepFrom(h, c, 256 * q + XorFour(x, y), k, r);
  }

  lemma XorIs(h: nat, c: nat, q: nat, x: Four, y: Four)
    requires Digits(x) && Digits(y) && h == 256 * q + Value(x) && c == Value(y)
    ensures Xor(h, c) == 256 * q + XorFour(x, y)
  {
    XorByte(q, x.a, x.b, x.c, x.d, y.a, y.b, y.c, y.d);
  }

  /** Character `i` of `s`, whose code is `y`, takes the hash from the state whose last byte is `x` and
      whose rest is `q` to the state `r`; `k` is what overflows. */
  lemma Round(step: (u32, char) -> u32, h: u32, s: string, i: nat, q: nat, x: Four, y: Four, k: nat, r: u32)
    requires IsRound(step) && i < |s| && Digits(x) && Digits(y) && s[i] as int == Value(y)
    requires Fold(step, h, s[..i]) == 256 * q + Value(x)
    requires (256 * q + XorFour(x, y)) * FNV_PRIME == k * WORD + r
    ensures Fold(step, h, s[..i + 1]) == r
  {
    assert s[..i + 1] == s[..i] + [s[i]];
    FoldConcat(step, h, s[..i], [s[i]]);
    assert [s[i]][1..] == "";
    StepIs(Fold(step, h, s[..i]), s[i], q, x, y, k, r);
  }

  // ---------------------------------------------------------------- texts

  lemma FileFront(step: (u32, char) -> u32, h: u32, s: string)
    requires IsRound(step) && h == 0x811c9dc5 && s == "xzv"
    ensures Fold(step, h, s) == 0xc29fa723
  {
    Round(step, h, s, 0, 0x811c9d, Four(3, 0, 1, 1), Four(1, 3, 2, 0), 0x811d68, 0xfd0c5087);
    Round(step, h, s, 1, 0xfd0c50, Four(2, 0, 1, 3), Four(1, 3, 2, 2), 0xfd0ddf, 0x57637e47);
    Round(step, h, s, 2, 0x57637e, Four(1, 0, 1, 3), Four(1, 3, 1, 2), 0x576407, 0xc29fa723);
    assert s[..3] == s;
  }

  lemma FileMiddle(step: (u32, char) -> u32, h: u32, s: string)
    requires IsRound(step) && h == 0xc29fa723 && s == "muu"
    ensures Fold(step, h, s) == 0x63ba8f08
  {
    Round(step, h, s, 0, 0xc29fa7, Four(0, 2, 0, 3), Four(1, 2, 3, 1), 0xc2a0d9, 0xaf545fca);
    Round(step, h, s, 1, 0xaf545f, Four(3, 0, 2, 2), Four(1, 3, 1, 1), 0xaf5573, 0xc0d2b9ad);
    Round(step, h, s, 2, 0xc0d2b9, Four(2, 2, 3, 1), Four(1, 3, 1, 1), 0xc0d3e9, 0x63ba8f08);
    assert s[..3] == s;
  }

  lemma FileBack(step: (u32, char) -> u32, h: u32, s: string)
    requires IsRound(step) && h == 0x63ba8f08 && s == "x.c"
    ensures Fold(step, h, s) == 0x5c0520bb
  {
    Round(step, h, s, 0, 0x63ba8f, Four(0, 0, 2, 0), Four(1, 3, 2, 0), 0x63bb2c, 0x6eafcd50);
    Round(step, h, s, 1, 0x6eafcd, Four(1, 1, 0, 0), Four(0, 2, 3, 2), 0x6eb07b, 0xbcc07d5a);
    Round(step, h, s, 2, 0xbcc07d, Four(1, 1, 2, 2), Four(1, 2, 0, 3), 0xbcc1a6, 0x5c0520bb);
    assert s[..3] == s;
  }

  lemma Place(step: (u32, char) -> u32, h: u32, s: string)
    requires IsRound(step) && h == 0x5c0520bb && s == ":1:1:"
    ensures Fold(step, h, s) == 0xdf9d3f
  {
    Round(step, h, s, 0, 0x5c0520, Four(2, 3, 2, 3), Four(0, 3, 2, 2), 0x5c05b1, 0x5d122b13);
    Round(step, h, s, 1, 0x5d122b, Four(0, 1, 0, 3), Four(0, 3, 0, 1), 0x5d12bd, 0xa599e686);
    Round(step, h, s, 2, 0xa599e6, Four(2, 0, 1, 2), Four(0, 3, 2, 2), 0xa59aeb, 0x6d4639f4);
    Round(step, h, s, 3, 0x6d4639, Four(3, 3, 1, 0), Four(0, 3, 0, 1), 0x6d46e5, 0xca8cf11f);
    Round(step, h, s, 4, 0xca8cf1, Four(0, 1, 3, 3), Four(0, 3, 2, 2), 0xca8e30, 0xdf9d3f);
    assert s[..5] == s;
  }

  lemma InF(step: (u32, char) -> u32, h: u32, s: string)
    requires IsRound(step) && h == 0xdf9d3f && s == "f:0:"
    ensures Fold(step, h, s) == 0x14cf44f9
  {
    Round(step, h, s, 0, 0xdf9d, Four(0, 3, 3, 3), Four(1, 2, 1, 2), 0xdf9e, 0xb904b31b);
    Round(step, h, s, 1, 0xb904b3, Four(0, 1, 2, 3), Four(0, 3, 2, 2), 0xb905d6, 0x6365fcf3);
    Round(step, h, s, 2, 0x6365fc, Four(3, 3, 0, 3), Four(0, 3, 0, 0), 0x636699, 0x3c8ce6f9);
    Round(step, h, s, 3, 0x3c8ce6, Four(3, 3, 2, 1), Four(0, 3, 2, 2), 0x3c8d46, 0x14cf44f9);
    assert s[..4] == s;
  }

  lemma InG(step: (u32, char) -> u32, h: u32, s: string)
    requires IsRound(step) && h == 0xdf9d3f && s == "g:0:"
    ensures Fold(step, h, s) == 0xa9144f58
  {
    Round(step, h, s, 0, 0xdf9d, Four(0, 3, 3, 3), Four(1, 2, 1, 3), 0xdf9e, 0xb804b188);
    Round(step, h, s, 1, 0xb804b1, Four(2, 0, 2, 0), Four(0, 3, 2, 2), 0xb805d3, 0x6163bb36);
    Round(step, h, s, 2, 0x6163bb, Four(0, 3, 1, 2), Four(0, 3, 0, 0), 0x616454, 0x55ff6a72);
    Round(step, h, s, 3, 0x55ff6a, Four(1, 3, 0, 2), Four(0, 3, 2, 2), 0x55fff1, 0xa9144f58);
    assert s[..4] == s;
  }

  lemma ArithmeticInF(step: (u32, char) -> u32, h: u32, s: string)
    requires IsRound(step) && h == 0x14cf44f9 && s == "AOR:"
    ensures Fold(step, h, s) == 0x74de563d
  {
    Round(step, h, s, 0, 0x14cf44, Four(3, 3, 2, 1), Four(1, 0, 0, 1), 0x14cf65, 0x7a492da8);
    Round(step, h, s, 1, 0x7a492d, Four(2, 2, 2, 0), Four(1, 0, 3, 3), 0x7a49ee, 0x683342a5);
    Round(step, h, s, 2, 0x683342, Four(2, 2, 1, 1), Four(1, 1, 0, 2), 0x6833e6, 0xffb26ad5);
    Round(step, h, s, 3, 0xffb26a, Four(3, 1, 1, 1), Four(0, 3, 2, 2), 0xffb3fd, 0x74de563d);
    assert s[..4] == s;
  }

  lemma BitwiseInF(step: (u32, char) -> u32, h: u32, s: string)
    requires IsRound(step) && h == 0x14cf44f9 && s == "BOR:"
    ensures Fold(step, h, s) == 0x995fd256
  {
    Round(step, h, s, 0, 0x14cf44, Four(3, 3, 2, 1), Four(1, 0, 0, 2), 0x14cf65, 0x7d493261);
    Round(step, h, s, 1, 0x7d4932, Four(1, 2, 0, 1), Four(1, 0, 3, 3), 0x7d49f7, 0x6839fe6a);
    Round(step, h, s, 2, 0x6839fe, Four(1, 2, 2, 2), Four(1, 1, 0, 2), 0x683aa2, 0x4b4b3228);
    Round(step, h, s, 3, 0x4b4b32, Four(0, 2, 2, 0), Four(0, 3, 2, 2), 0x4b4ba8, 0x995fd256);
    assert s[..4] == s;
  }

  lemma BitwiseInG(step: (u32, char) -> u32, h: u32, s: string)
    requires IsRound(step) && h == 0xa9144f58 && s == "BOR:"
    ensures Fold(step, h, s) == 0xb019416b
  {
    Round(step, h, s, 0, 0xa9144f, Four(1, 1, 2, 0), Four(1, 0, 0, 2), 0xa91559, 0x44f885ee);
    Round(step, h, s, 1, 0x44f885, Four(3, 2, 3, 2), Four(1, 0, 3, 3), 0x44f8f2, 0x343a5c73);
    Round(step, h, s, 2, 0x343a5c, Four(1, 3, 0, 3), Four(1, 1, 0, 2), 0x343aae, 0x58df07f3);
    Round(step, h, s, 3, 0x58df07, Four(3, 3, 0, 3), Four(0, 3, 2, 2), 0x58df93, 0xb019416b);
    assert s[..4] == s;
  }

  lemma SumToDifference(step: (u32, char) -> u32, h: u32, s: string)
    requires IsRound(step) && h == 0x74de563d && s == "+:-"
    ensures Fold(step, h, s) == 0xffffffff
  {
    Round(step, h, s, 0, 0x74de56, Four(0, 3, 3, 1), Four(0, 2, 2, 3), 0x74df0e, 0x100184a2);
    Round(step, h, s, 1, 0x100184, Four(2, 2, 0, 2), Four(0, 3, 2, 2), 0x10019d, 0xca63bb48);
    Round(step, h, s, 2, 0xca63bb, Four(1, 0, 2, 0), Four(0, 2, 3, 1), 0xca64f9, 0xffffffff);
    assert s[..3] == s;
  }

  lemma SumToProduct(step: (u32, char) -> u32, h: u32, s: string)
    requires IsRound(step) && h == 0x74de563d && s == "+:*"
    ensures Fold(step, h, s) == 0xfcfffb46
  {
    Round(step, h, s, 0, 0x74de56, Four(0, 3, 3, 1), Four(0, 2, 2, 3), 0x74df0e, 0x100184a2);
    Round(step, h, s, 1, 0x100184, Four(2, 2, 0, 2), Four(0, 3, 2, 2), 0x10019d, 0xca63bb48);
    Round(step, h, s, 2, 0xca63bb, Four(1, 0, 2, 0), Four(0, 2, 2, 2), 0xca64f9, 0xfcfffb46);
    assert s[..3] == s;
  }

  lemma ProductToQuotient(step: (u32, char) -> u32, h: u32, s: string)
    requires IsRound(step) && h == 0x74de563d && s == "*:/"
    ensures Fold(step, h, s) == 0xea14336
  {
    Round(step, h, s, 0, 0x74de56, Four(0, 3, 3, 1), Four(0, 2, 2, 2), 0x74df0e, 0x11018635);
    Round(step, h, s, 1, 0x110186, Four(0, 3, 1, 1), Four(0, 3, 2, 2), 0x1101a0, 0xd466099d);
    Round(step, h, s, 2, 0xd46609, Four(2, 1, 3, 1), Four(0, 2, 3, 3), 0xd46758, 0xea14336);
    assert s[..3] == s;
  }

  lemma ProductToSum(step: (u32, char) -> u32, h: u32, s: string)
    requires IsRound(step) && h == 0x74de563d && s == "*:+"
    ensures Fold(step, h, s) == 0x12a14982
  {
    Round(step, h, s, 0, 0x74de56, Four(0, 3, 3, 1), Four(0, 2, 2, 2), 0x74df0e, 0x11018635);
    Round(step, h, s, 1, 0x110186, Four(0, 3, 1, 1), Four(0, 3, 2, 2), 0x1101a0, 0xd466099d);
    Round(step, h, s, 2, 0xd46609, Four(2, 1, 3, 1), Four(0, 2, 2, 3), 0xd46758, 0x12a14982);
    assert s[..3] == s;
  }

  lemma AndToOr(step: (u32, char) -> u32, h: u32, s: string)
    requires IsRound(step) && h == 0x995fd256 && s == "&:|"
    ensures Fold(step, h, s) == 0xc0170706
  {
    Round(step, h, s, 0, 0x995fd2, Four(1, 1, 1, 2), Four(0, 2, 1, 2), 0x9960c3, 0xe1d84650);
    Round(step, h, s, 1, 0xe1d846, Four(1, 1, 0, 0), Four(0, 3, 2, 2), 0xe1d9a9, 0xf176d8de);
    Round(step, h, s, 2, 0xf176d8, Four(3, 1, 3, 2), Four(1, 3, 3, 0), 0xf17854, 0xc0170706);
    assert s[..3] == s;
  }

  lemma OrToAnd(step: (u32, char) -> u32, h: u32, s: string)
    requires IsRound(step) && h == 0xb019416b && s == "|:&"
    ensures Fold(step, h, s) == 0xc6352a61
  {
    Round(step, h, s, 0, 0xb01941, Four(1, 2, 2, 3), Four(1, 3, 3, 0), 0xb01a56, 0x4ec17735);
    Round(step, h, s, 1, 0x4ec177, Four(0, 3, 1, 1), Four(0, 3, 2, 2), 0x4ec1f3, 0x98e6c9d);
    Round(step, h, s, 2, 0x98e6c, Four(2, 1, 3, 1), Four(0, 2, 1, 2), 0x98e7b, 0xc6352a61);
    assert s[..3] == s;
  }

  // ---------------------------------------------------------------- ids

  const FILE := "xzvmuux.c"

  /** A mutant at line 1, column 1 that is the first instruction of its function. */
  function KeyIn(fn: string, kind: string, op: string, mut: string): Key {
    Key(FILE, 1, 1, fn, 0, kind, op, mut)
  }

  function OneRound(): (step: (u32, char) -> u32)
    ensures IsRound(step)
  {
    (h: u32, c: char) => FnvStep(h, c)
  }

  lemma FileHash(step: (u32, char) -> u32)
    requires IsRound(step)
    ensures Fold(step, FNV_BASIS, FILE + ":1:1:") == 0xdf9d3f
  {
    FileFront(step, FNV_BASIS, "xzv");
    FileMiddle(step, 0xc29fa723, "muu");
    FileBack(step, 0x63ba8f08, "x.c");
    Place(step, 0x5c0520bb, ":1:1:");
    FoldConcat(step, FNV_BASIS, "xzv", "muu");
    FoldConcat(step, FNV_BASIS, "xzv" + "muu", "x.c");
    FoldConcat(step, FNV_BASIS, FILE, ":1:1:");
    assert FILE == "xzv" + "muu" + "x.c";
  }

  lemma TextHash(step: (u32, char) -> u32, fn: string, kind: string, op: string, mut: string)
    requires IsRound(step)
    ensures FnvRaw(FNV_BASIS, KeyText(KeyIn(fn, kind, op, mut))) ==
            Fold(step, Fold(step, Fold(step, Fold(step, FNV_BASIS, FILE + ":1:1:"), fn + ":0:"), kind + ":"),
                 op + ":" + mut)
  {
    var place, f, k, m := FILE + ":1:1:", fn + ":0:", kind + ":", op + ":" + mut;
    TextParts(fn, kind, op, mut);
    FoldIsRaw(step, FNV_BASIS, place + f + k + m);
    FoldConcat(step, FNV_BASIS, place, f);
    FoldConcat(step, FNV_BASIS, place + f, k);
    FoldConcat(step, FNV_BASIS, place + f + k, m);
  }

  lemma TextParts(fn: string, kind: string, op: string, mut: string)
    ensures KeyText(KeyIn(fn, kind, op, mut)) == (FILE + ":1:1:") + (fn + ":0:") + (kind + ":") + (op + ":" + mut)
  {
    assert Dec(1) == "1" && Dec(0) == "0";
    assert ":1:1:" == ":" + ("1" + (":" + ("1" + ":"))) && ":0:" == ":" + ("0" + ":");
    Regroup8(FILE, ":", "1", fn, "0", kind, op, mut);
  }

  lemma Regroup8(file: string, c: string, one: string, fn: string, zero: string, kind: string, op: string, mut: string)
    ensures file + c + one + c + one + c + fn + c + zero + c + kind + c + op + c + mut ==
            (file + (c + (one + (c + (one + c))))) + (fn + (c + (zero + c))) + (kind + c) + (op + c + mut)
  {
  }

  lemma DifferenceId()
    ensures IdOfKey(KeyIn("f", "AOR", "+", "-")) == 0xffffffff
  {
    var step := OneRound();
    FileHash(step);
    InF(step, 0xdf9d3f, "f" + ":0:");
    ArithmeticInF(step, 0x14cf44f9, "AOR" + ":");
    SumToDifference(step, 0x74de563d, "+" + ":" + "-");
    TextHash(step, "f", "AOR", "+", "-");
  }

  lemma ProductId()
    ensures IdOfKey(KeyIn("f", "AOR", "+", "*")) == 0xfcfffb46
  {
    var step := OneRound();
    FileHash(step);
    InF(step, 0xdf9d3f, "f" + ":0:");
    ArithmeticInF(step, 0x14cf44f9, "AOR" + ":");
    SumToProduct(step, 0x74de563d, "+" + ":" + "*");
    TextHash(step, "f", "AOR", "+", "*");
  }

  lemma QuotientId()
    ensures IdOfKey(KeyIn("f", "AOR", "*", "/")) == 0xea14336
  {
    var step := OneRound();
    FileHash(step);
    InF(step, 0xdf9d3f, "f" + ":0:");
    ArithmeticInF(step, 0x14cf44f9, "AOR" + ":");
    ProductToQuotient(step, 0x74de563d, "*" + ":" + "/");
    TextHash(step, "f", "AOR", "*", "/");
  }

  lemma SumId()
    ensures IdOfKey(KeyIn("f", "AOR", "*", "+")) == 0x12a14982
  {
    var step := OneRound();
    FileHash(step);
    InF(step, 0xdf9d3f, "f" + ":0:");
    ArithmeticInF(step, 0x14cf44f9, "AOR" + ":");
    ProductToSum(step, 0x74de563d, "*" + ":" + "+");
    TextHash(step, "f", "AOR", "*", "+");
  }

  lemma OrId()
    ensures IdOfKey(KeyIn("f", "BOR", "&", "|")) == 0xc0170706
  {
    var step := OneRound();
    FileHash(step);
    InF(step, 0xdf9d3f, "f" + ":0:");
    BitwiseInF(step, 0x14cf44f9, "BOR" + ":");
    AndToOr(step, 0x995fd256, "&" + ":" + "|");
    TextHash(step, "f", "BOR", "&", "|");
  }

  lemma AndId()
    ensures IdOfKey(KeyIn("g", "BOR", "|", "&")) == 0xc6352a61
  {
    var step := OneRound();
    FileHash(step);
    InG(step, 0xdf9d3f, "g" + ":0:");
    BitwiseInG(step, 0xa9144f58, "BOR" + ":");
    OrToAnd(step, 0xb019416b, "|" + ":" + "&");
    TextHash(step, "g", "BOR", "|", "&");
  }
}
