/** The two hash functions: FNV-1a, which turns a mutant's key into its id, and the mixer
    that places an id in the hit table. */
module Hash {
  import opened Scalars
  import opened Bits

  const WORD: nat := 0x1_0000_0000

  lemma WordIsPow()
    ensures Pow(32) == WORD
  {
    assert Pow(8) == 256;
    assert Pow(16) == 0x1_0000;
    assert Pow(24) == 0x100_0000;
  }

  function XorWord(x: u32, y: u32): u32 {
    WordIsPow();
    XorBound(x, y, 32);
    Xor(x, y)
  }

  /** Multiplication of `unsigned` words. */
  function Times(x: u32, c: nat): u32 {
    (x * c) % WORD
  }

  /** Multiplying by an odd constant is undone by its inverse modulo 2^32. */
  lemma TimesInverse(x: u32, c: nat, d: nat, k: nat)
    requires c * d == 1 + k * WORD
    ensures Times(Times(x, c), d) == x
  {
    var q := (x * c) / WORD;
    var t := Times(x, c);
    assert t == x * c - q * WORD;
    calc {
      t * d;
      (x * c - q * WORD) * d;
      x * c * d - q * WORD * d;
      x * (c * d) - q * d * WORD;
      x * (1 + k * WORD) - q * d * WORD;
      x + (x * k - q * d) * WORD;
    }
    WrapMultiple(x, x * k - q * d);
  }

  lemma WrapMultiple(x: u32, z: int)
    ensures (x + z * WORD) % WORD == x
  {
  }

  // ---------------------------------------------------------------- FNV-1a

  const FNV_BASIS: u32 := 2166136261
  const FNV_PRIME: nat := 16777619

  /** The byte a character stands for. */
  function Byte(c: char): u32 {
    c as int % 256
  }

  function FnvStep(h: u32, c: char): u32 {
    Times(XorWord(h, Byte(c)), FNV_PRIME)
  }

  /** The hash before the final test for zero. */
  function FnvRaw(h: u32, s: string): u32
    decreases |s|
  {
    if s == "" then h else FnvRaw(FnvStep(h, s[0]), s[1..])
  }

  function Fnv1a(s: string): (id: u32)
    ensures id != 0
  {
    var h := FnvRaw(FNV_BASIS, s);
    if h == 0 then 1 else h
  }

  method ComputeFnv1a(s: string) returns (id: u32)
    ensures id == Fnv1a(s)
  {
    var h := FNV_BASIS;
    for i := 0 to |s|
      invariant FnvRaw(h, s[i..]) == FnvRaw(FNV_BASIS, s)
    {
      assert s[i..][1..] == s[i + 1..];
      h := XorWord(h, Byte(s[i]));
      h := Times(h, FNV_PRIME);
    }
    id := if h == 0 then 1 else h;
  }

  /** One round is undone by the inverse multiplier, in the state and in the byte. */
  lemma StepInjective(h: u32, k: u32, c: char, d: char)
    requires FnvStep(h, c) == FnvStep(k, d)
    ensures XorWord(h, Byte(c)) == XorWord(k, Byte(d))
  {
    TimesInverse(XorWord(h, Byte(c)), FNV_PRIME, 899433627, 3513497);
    TimesInverse(XorWord(k, Byte(d)), FNV_PRIME, 899433627, 3513497);
  }

  lemma ByteInjective(h: u32, c: char, d: char)
    requires c as int < 256 && d as int < 256 && c != d
    ensures FnvStep(h, c) != FnvStep(h, d)
  {
    var b, b' := Byte(c), Byte(d);
    BytesDiffer(c, d);
    if FnvStep(h, c) == FnvStep(h, d) {
      StepInjective(h, h, c, d);
      XorDiffers(h, b, b');
    }
  }

  lemma BytesDiffer(c: char, d: char)
    requires c as int < 256 && d as int < 256 && c != d
    ensures Byte(c) != Byte(d)
  {
  }

  lemma XorDiffers(h: nat, b: nat, b': nat)
    requires b != b'
    ensures Xor(h, b) != Xor(h, b')
  {
    XorCancels(b, h);
    XorCancels(b', h);
  }

  lemma {:induction false} SuffixInjective(h: u32, k: u32, s: string)
    ensures FnvRaw(h, s) == FnvRaw(k, s) ==> h == k
    decreases |s|
  {
    if s != "" {
      SuffixInjective(FnvStep(h, s[0]), FnvStep(k, s[0]), s[1..]);
      if FnvStep(h, s[0]) == FnvStep(k, s[0]) {
        StepInjective(h, k, s[0], s[0]);
        XorCancels(h, Byte(s[0]));
        XorCancels(k, Byte(s[0]));
      }
    }
  }

  lemma {:induction false} RawConcat(h: u32, s: string, t: string)
    ensures FnvRaw(h, s + t) == FnvRaw(FnvRaw(h, s), t)
    decreases |s|
  {
    if s == "" {
      assert s + t == t;
    } else {
      assert (s + t)[1..] == s[1..] + t;
      RawConcat(FnvStep(h, s[0]), s[1..], t);
    }
  }

  lemma RawOneByte(pre: string, c: char, post: string)
    ensures FnvRaw(FNV_BASIS, pre + [c] + post) == FnvRaw(FnvStep(FnvRaw(FNV_BASIS, pre), c), post)
  {
    RawConcat(FNV_BASIS, pre + [c], post);
    RawConcat(FNV_BASIS, pre, [c]);
    assert [c][1..] == "";
  }

  /** Keys that differ in one byte have different raw hashes; their ids can only collide
      through the replacement of 0 by 1. */
  lemma OneByteChanges(pre: string, c: char, d: char, post: string)
    requires c as int < 256 && d as int < 256 && c != d
    ensures FnvRaw(FNV_BASIS, pre + [c] + post) != FnvRaw(FNV_BASIS, pre + [d] + post)
    ensures Fnv1a(pre + [c] + post) == Fnv1a(pre + [d] + post) ==> Fnv1a(pre + [c] + post) == 1
  {
    var h := FnvRaw(FNV_BASIS, pre);
    RawOneByte(pre, c, post);
    RawOneByte(pre, d, post);
    ByteInjective(h, c, d);
    SuffixInjective(FnvStep(h, c), FnvStep(h, d), post);
  }

  // ---------------------------------------------------------------- the hit-table mixer

  /** `x ^ (x >> k)` on words. */
  function Mix(x: u32, k: nat): u32 {
    ShrBound(x, k);
    XorWord(x, Shr(x, k))
  }

  function HitHash(id: u32): u32 {
    Mix(Times(Mix(id, 16), 0x7feb352d), 15)
  }

  method ComputeHitHash(word: u32) returns (id: u32)
    ensures id == HitHash(word)
  {
    id := word;
    id := Mix(id, 16);
    id := Times(id, 0x7feb352d);
    id := Mix(id, 15);
  }

  /** Undoes `Mix(_, 15)`. */
  function Unmix15(y: u32): u32 {
    ShrBound(y, 15);
    ShrBound(y, 30);
    XorWord(XorWord(y, Shr(y, 15)), Shr(y, 30))
  }

  function UnHitHash(h: u32): u32 {
    Mix(Times(Unmix15(h), 0x1d69e2a5), 16)
  }

  lemma Mix16Inverse(x: u32)
    ensures Mix(Mix(x, 16), 16) == x
  {
    var s := Shr(x, 16);
    WordIsPow();
    ShrXor(x, s, 16);
    ShrShr(x, 16, 16);
    ShrSmall(x, 32);
    XorCancels(x, s);
  }

  /** With `s1`, `s2` the words shifted by 15 and 30, `x^s1`, then `^s1^s2`, then `^s2`. */
  lemma Unmix15Inverse(x: u32)
    ensures Unmix15(Mix(x, 15)) == x && Mix(Unmix15(x), 15) == x
  {
    var s1, s2 := Shr(x, 15), Shr(x, 30);
    WordIsPow();
    ShrShr(x, 15, 15);
    ShrShr(x, 15, 30);
    ShrShr(x, 30, 15);
    ShrBound(x, 15);
    ShrShr(x, 32, 13);
    ShrSmall(x, 32);
    ShrSmall(0, 13);
    assert Shr(x, 45) == 0;
    ShrXor(x, s1, 15);
    ShrXor(x, s1, 30);
    ShrXor(Xor(x, s1), s2, 15);
    XorAssociates(x, s1, Xor(s1, s2));
    XorAssociates(Xor(x, s1), Xor(s1, s2), s2);
    XorAssociates(x, s1, s2);
    XorAssociates(s1, s1, s2);
    XorCancels(x, s2);
    XorCancels(s2, s1);
    XorSelf(s1);
    XorSelf(s2);
    XorAssociates(Xor(x, s1), s2, Xor(s1, s2));
    XorCommutes(s1, s2);
    XorCancels(s1, s2);
    XorCancels(x, s1);
  }

  /** The mixer is a bijection on 32-bit words. */
  lemma HitHashBijective(x: u32)
    ensures UnHitHash(HitHash(x)) == x
    ensures HitHash(UnHitHash(x)) == x
  {
    Mix16Inverse(x);
    TimesInverse(Mix(x, 16), 0x7feb352d, 0x1d69e2a5, 246582719);
    Unmix15Inverse(Times(Mix(x, 16), 0x7feb352d));
    Unmix15Inverse(x);
    TimesInverse(Unmix15(x), 0x1d69e2a5, 0x7feb352d, 246582719);
    Mix16Inverse(Times(Unmix15(x), 0x1d69e2a5));
  }
}
