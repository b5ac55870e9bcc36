/** Catalog records and the keys that their ids are hashed from. */
module Keys {
  import opened Scalars
  import opened Text
  import opened Hash

  datatype Mutant = Mutant(id: u32, file: string, line: u32, col: u32, kind: string, op: string, mut: string)

  /** Everything `idFor` puts into a mutant's key. */
  datatype Key = Key(file: string, line: u32, col: u32, fn: string, ord: nat, kind: string, op: string, mut: string)

  function KeyText(k: Key): string {
    k.file + ":" + Dec(k.line) + ":" + Dec(k.col) + ":" + k.fn + ":" + Dec(k.ord) + ":" + k.kind + ":" + k.op + ":"
      + k.mut
  }

  lemma TwoDigits(n: nat)
    requires 10 <= n < 100
    ensures Dec(n) == [Digit(n / 10), Digit(n % 10)]
  {
  }

  /** The key of the first replacement in a comparison at line 31, column 9. */
  lemma KeyTextExample(file: string, fn: string)
    ensures KeyText(Key(file, 31, 9, fn, 12, "ROR", "==", "!=")) ==
            file + ":" + "31" + ":" + "9" + ":" + fn + ":" + "12" + ":" + "ROR" + ":" + "==" + ":" + "!="
  {
    TwoDigits(31);
    TwoDigits(12);
  }

  function IdOfKey(k: Key): u32 {
    Fnv1a(KeyText(k))
  }

  function RecordOf(k: Key): Mutant {
    Mutant(IdOfKey(k), k.file, k.line, k.col, k.kind, k.op, k.mut)
  }

  predicate NoColon(s: string) {
    ':' !in s
  }

  /** The last colon of a text is unambiguous. */
  lemma LastColon(a: string, b: string, c: string, d: string)
    requires NoColon(b) && NoColon(d) && a + ":" + b == c + ":" + d
    ensures a == c && b == d
  {
    var s := a + ":" + b;
    assert s[|a|] == ':' && s[|c|] == ':';
    assert |a| == |c|;
    assert a == s[..|a|] && c == s[..|c|];
    assert b == s[|a| + 1..] && d == s[|c| + 1..];
  }

  ghost predicate Decodable(k: Key) {
    NoColon(k.fn) && NoColon(k.kind) && NoColon(k.op) && NoColon(k.mut)
  }

  /** A key can be read back from its text, from the right; only the file name may contain
      colons. */
  lemma KeyTextInjective(k: Key, l: Key)
    requires Decodable(k) && Decodable(l) && KeyText(k) == KeyText(l)
    ensures k == l
  {
    var k1, l1 := k.file + ":" + Dec(k.line), l.file + ":" + Dec(l.line);
    var k2, l2 := k1 + ":" + Dec(k.col), l1 + ":" + Dec(l.col);
    var k3, l3 := k2 + ":" + k.fn, l2 + ":" + l.fn;
    var k4, l4 := k3 + ":" + Dec(k.ord), l3 + ":" + Dec(l.ord);
    var k5, l5 := k4 + ":" + k.kind, l4 + ":" + l.kind;
    var k6, l6 := k5 + ":" + k.op, l5 + ":" + l.op;
    LastColon(k6, k.mut, l6, l.mut);
    LastColon(k5, k.op, l5, l.op);
    LastColon(k4, k.kind, l4, l.kind);
    LastColon(k3, Dec(k.ord), l3, Dec(l.ord));
    LastColon(k2, k.fn, l2, l.fn);
    LastColon(k1, Dec(k.col), l1, Dec(l.col));
    LastColon(k.file, Dec(k.line), l.file, Dec(l.line));
    DecInjective(k.ord, l.ord);
    DecInjective(k.col, l.col);
    DecInjective(k.line, l.line);
  }
}
