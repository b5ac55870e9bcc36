/** Text primitives of the C++ sources: `std::to_string`, `strtoul`, `std::getline` and
    `std::string::find`.  A character stands for one byte. */
module Text {
  import opened Scalars
  import opened Seqs

  // ---------------------------------------------------------------- decimal numbers

  predicate IsDigit(c: char) {
    '0' <= c <= '9'
  }

  function Digit(d: nat): (c: char)
    requires d < 10
    ensures IsDigit(c)
  {
    '0' + d as char
  }

  function DigitVal(c: char): nat
    requires IsDigit(c)
  {
    c as int - '0' as int
  }

  /** `std::to_string` of an unsigned number. */
  function Dec(n: nat): (s: string)
    ensures s != "" && forall i :: 0 <= i < |s| ==> IsDigit(s[i])
  {
    if n < 10 then [Digit(n)] else Dec(n / 10) + [Digit(n % 10)]
  }

  /** The longest digit prefix of `s`, read after the digits of `acc`. */
  function DigitsVal(s: string, acc: nat): nat {
    if s == "" || !IsDigit(s[0]) then acc else DigitsVal(s[1..], 10 * acc + DigitVal(s[0]))
  }

  lemma {:induction false} DigitsConcat(a: string, b: string, acc: nat)
    requires forall i :: 0 <= i < |a| ==> IsDigit(a[i])
    ensures DigitsVal(a + b, acc) == DigitsVal(b, DigitsVal(a, acc))
    decreases |a|
  {
    if a == "" {
      assert a + b == b;
    } else {
      assert (a + b)[1..] == a[1..] + b;
      DigitsConcat(a[1..], b, 10 * acc + DigitVal(a[0]));
    }
  }

  lemma {:induction false} DecVal(n: nat)
    ensures DigitsVal(Dec(n), 0) == n
  {
    if n >= 10 {
      DecVal(n / 10);
      DigitsConcat(Dec(n / 10), [Digit(n % 10)], 0);
      assert [Digit(n % 10)][1..] == "";
    } else {
      assert [Digit(n)][1..] == "";
    }
  }

  lemma DecInjective(m: nat, n: nat)
    requires Dec(m) == Dec(n)
    ensures m == n
  {
    DecVal(m);
    DecVal(n);
  }

  predicate IsSpace(c: char) {
    c == ' ' || '\t' <= c <= '\r'
  }

  function SkipSpace(s: string): string {
    if s != "" && IsSpace(s[0]) then SkipSpace(s[1..]) else s
  }

  const ULONG_MAX: nat := 0xFFFF_FFFF_FFFF_FFFF

  /** `strtoul(s, NULL, 10)` with a 64-bit `unsigned long`: leading space, an optional sign,
      saturation on overflow, negation modulo 2^64 after a minus sign, 0 without digits. */
  function StrToUl(s: string): nat {
    var t := SkipSpace(s);
    var minus := t != "" && t[0] == '-';
    var v := DigitsVal(if t != "" && (t[0] == '-' || t[0] == '+') then t[1..] else t, 0);
    if v > ULONG_MAX then ULONG_MAX else if minus && v > 0 then ULONG_MAX + 1 - v else v
  }

  /** `static_cast<unsigned>(strtoul(...))` */
  function ToUnsigned(s: string): u32 {
    StrToUl(s) % 0x1_0000_0000
  }

  lemma ParseDec(n: u32, rest: string)
    requires rest == "" || !IsDigit(rest[0])
    ensures ToUnsigned(Dec(n) + rest) == n
  {
    var s := Dec(n) + rest;
    assert s[0] == Dec(n)[0];
    DigitsConcat(Dec(n), rest, 0);
    DecVal(n);
  }

  lemma {:induction false} SpaceSkipped(space: string, rest: string)
    requires forall k :: 0 <= k < |space| ==> space[k] in " \t\n\r" || space[k] as int in {11, 12}
    requires rest == "" || !IsSpace(rest[0])
    ensures SkipSpace(space + rest) == rest
  {
    if space == "" {
      assert space + rest == rest;
    } else {
      assert (space + rest)[1..] == space[1..] + rest && (space + rest)[0] == space[0];
      SpaceSkipped(space[1..], rest);
    }
  }

  lemma DigitsRead(n: nat, rest: string)
    requires rest == "" || !IsDigit(rest[0])
    ensures DigitsVal(Dec(n) + rest, 0) == n
  {
    DigitsConcat(Dec(n), rest, 0);
    DecVal(n);
  }

  /** What `strtoul` makes of white space, a sign, a decimal number and other text. */
  lemma NumberRead(space: string, sign: string, n: nat, rest: string)
    requires forall k :: 0 <= k < |space| ==> space[k] in " \t\n\r" || space[k] as int in {11, 12}
    requires sign == "" || sign == "-" || sign == "+"
    requires rest == "" || !IsDigit(rest[0])
    ensures StrToUl(space + (sign + (Dec(n) + rest))) ==
            if n >= 0x1_0000_0000_0000_0000 then 0xFFFF_FFFF_FFFF_FFFF
            else if sign == "-" && n > 0 then 0x1_0000_0000_0000_0000 - n
            else n
  {
    var u := Dec(n) + rest;
    var t := sign + u;
    assert u[0] == Dec(n)[0] && IsDigit(u[0]);
    assert t[0] == if sign == "" then u[0] else sign[0];
    SpaceSkipped(space, t);
    if sign == "" { assert t == u; } else { assert t[1..] == u; }
    DigitsRead(n, rest);
  }

  // ---------------------------------------------------------------- lines

  /** The index of the first newline, or the length. */
  function LineEnd(s: string): (e: nat)
    ensures e <= |s| && '\n' !in s[..e] && (e < |s| ==> s[e] == '\n')
  {
    if s == "" || s[0] == '\n' then 0 else
      var e := 1 + LineEnd(s[1..]);
      assert s[..e] == [s[0]] + s[1..][..e - 1];
      e
  }

  /** The lines `std::getline` delivers until it fails. */
  function Lines(text: string): seq<string> {
    if text == "" then [] else
      var e := LineEnd(text);
      [text[..e]] + if e < |text| then Lines(text[e + 1..]) else []
  }

  function FirstLine(text: string): string {
    text[..LineEnd(text)]
  }

  /** What `std::getline` leaves in the stream. */
  function RestLines(text: string): (r: string)
    ensures text != "" ==> |r| < |text|
  {
    var e := LineEnd(text);
    if e < |text| then text[e + 1..] else ""
  }

  lemma LinesStep(text: string)
    requires text != ""
    ensures Lines(text) == [FirstLine(text)] + Lines(RestLines(text))
  {
  }

  lemma LineEndUnique(s: string, e: nat)
    requires e < |s| && s[e] == '\n' && '\n' !in s[..e]
    ensures LineEnd(s) == e
  {
  }

  lemma LinesCons(l: string, rest: string)
    requires '\n' !in l
    ensures Lines(l + "\n" + rest) == [l] + Lines(rest)
  {
    var s := l + "\n" + rest;
    assert s[..|l|] == l;
    LineEndUnique(s, |l|);
    assert s[|l| + 1..] == rest;
  }

  predicate EndsLine(s: string) {
    s == "" || s[|s| - 1] == '\n'
  }

  lemma {:induction false} LinesConcat(a: string, b: string)
    requires EndsLine(a)
    ensures Lines(a + b) == Lines(a) + Lines(b)
    decreases |a|
  {
    if a == "" {
      assert a + b == b;
    } else {
      SplitLine(a);
      var l, rest := a[..LineEnd(a)], a[LineEnd(a) + 1..];
      LinesConcat(rest, b);
      LinesConcatStep(l, rest, a, b);
    }
  }

  function JoinLines(ls: seq<string>): string {
    if ls == [] then "" else ls[0] + "\n" + JoinLines(ls[1..])
  }

  predicate OneLine(s: string) {
    '\n' !in s
  }

  lemma {:induction false} LinesOfJoin(ls: seq<string>)
    requires forall k :: 0 <= k < |ls| ==> OneLine(ls[k])
    ensures Lines(JoinLines(ls)) == ls
  {
    if ls != [] {
      LinesCons(ls[0], JoinLines(ls[1..]));
      LinesOfJoin(ls[1..]);
    }
  }

  lemma LinesConcatStep(l: string, rest: string, a: string, b: string)
    requires '\n' !in l && a == l + "\n" + rest && Lines(rest + b) == Lines(rest) + Lines(b)
    ensures Lines(a + b) == Lines(a) + Lines(b)
  {
    LinesCons(l, rest);
    Assoc(l + "\n", rest, b);
    LinesCons(l, rest + b);
    Assoc([l], Lines(rest), Lines(b));
  }

  lemma SplitLine(a: string)
    requires a != "" && EndsLine(a)
    ensures LineEnd(a) < |a| && a == a[..LineEnd(a)] + "\n" + a[LineEnd(a) + 1..] && EndsLine(a[LineEnd(a) + 1..])
  {
    var e := LineEnd(a);
    EndsInside(a, e);
    CutAt(a, e);
  }

  lemma EndsInside(a: string, e: nat)
    requires a != "" && EndsLine(a) && e <= |a| && '\n' !in a[..e]
    ensures e < |a|
  {
    assert a[..|a|][|a| - 1] == '\n';
  }

  lemma CutAt(a: string, e: nat)
    requires a != "" && EndsLine(a) && e < |a| && a[e] == '\n'
    ensures a == a[..e] + "\n" + a[e + 1..] && EndsLine(a[e + 1..])
  {
  }

  // ---------------------------------------------------------------- substring search

  predicate MatchAt(pat: string, text: string, i: nat) {
    i + |pat| <= |text| && text[i..i + |pat|] == pat
  }

  /** `text.find(pat)`: the first match, or None for npos. */
  function Find(pat: string, text: string): (r: Option<nat>)
    ensures r.Some? ==> MatchAt(pat, text, r.value) && forall i: nat :: i < r.value ==> !MatchAt(pat, text, i)
    ensures r.None? ==> forall i: nat :: !MatchAt(pat, text, i)
  {
    FindFrom(pat, text, 0)
  }

  function FindFrom(pat: string, text: string, i: nat): (r: Option<nat>)
    ensures r.Some? ==> i <= r.value && MatchAt(pat, text, r.value)
    ensures r.Some? ==> forall j: nat :: i <= j < r.value ==> !MatchAt(pat, text, j)
    ensures r.None? ==> forall j: nat :: i <= j ==> !MatchAt(pat, text, j)
    decreases |text| - i
  {
    if i + |pat| > |text| then None
    else if text[i..i + |pat|] == pat then Some(i)
    else FindFrom(pat, text, i + 1)
  }

  // ---------------------------------------------------------------- order of strings

  /** `a < b` on `std::string`. */
  predicate StrLess(a: string, b: string) {
    b != "" && (a == "" || a[0] < b[0] || (a[0] == b[0] && StrLess(a[1..], b[1..])))
  }

  /** The strings first differ at `k`, where `a` has the smaller character. */
  predicate DifferAt(a: string, b: string, k: nat) {
    k < |a| && k < |b| && a[..k] == b[..k] && a[k] < b[k]
  }

  /** One string is a proper prefix of the other, or the first character in which they differ is the
      smaller one. */
  ghost predicate Below(a: string, b: string) {
    (|a| < |b| && a == b[..|a|]) || exists k: nat :: DifferAt(a, b, k)
  }

  lemma {:induction false} StrLessExact(a: string, b: string)
    ensures StrLess(a, b) <==> Below(a, b)
  {
    if a != "" && b != "" && a[0] == b[0] {
      StrLessExact(a[1..], b[1..]);
      BelowTail(a, b);
    } else if a != "" && b != "" && a[0] < b[0] {
      assert DifferAt(a, b, 0);
    }
  }

  lemma BelowTail(a: string, b: string)
    requires a != "" && b != "" && a[0] == b[0]
    ensures Below(a, b) <==> Below(a[1..], b[1..])
  {
    if k: nat :| DifferAt(a, b, k) { DifferLess(a, b, k - 1); }
    if k: nat :| DifferAt(a[1..], b[1..], k) { DifferLess(a, b, k); }
    if |a| < |b| { PrefixTail(a, b); }
  }

  lemma DifferLess(a: string, b: string, k: nat)
    requires a != "" && b != "" && a[0] == b[0]
    ensures DifferAt(a, b, k + 1) <==> DifferAt(a[1..], b[1..], k)
  {
    if k + 1 < |a| && k + 1 < |b| {
      assert a[..k + 1] == [a[0]] + a[1..][..k] && b[..k + 1] == [b[0]] + b[1..][..k];
      assert a[1..][..k] == a[..k + 1][1..] && b[1..][..k] == b[..k + 1][1..];
    }
  }

  lemma PrefixTail(a: string, b: string)
    requires a != "" && |a| < |b| && a[0] == b[0]
    ensures a == b[..|a|] <==> a[1..] == b[1..][..|a| - 1]
  {
    assert a == [a[0]] + a[1..] && b[..|a|] == [b[0]] + b[1..][..|a| - 1];
    assert b[1..][..|a| - 1] == b[..|a|][1..];
  }

  lemma {:induction false} StrLessTransitive(a: string, b: string, c: string)
    requires StrLess(a, b) && StrLess(b, c)
    ensures StrLess(a, c)
  {
    if a != "" && a[0] == b[0] && b[0] == c[0] {
      StrLessTransitive(a[1..], b[1..], c[1..]);
    }
  }

  lemma {:induction false} StrLessTotal(a: string, b: string)
    ensures StrLess(a, b) || a == b || StrLess(b, a)
    ensures !(StrLess(a, b) && StrLess(b, a)) && !StrLess(a, a)
  {
    if a != "" && b != "" && a[0] == b[0] {
      StrLessTotal(a[1..], b[1..]);
      if a[1..] == b[1..] {
        assert a == [a[0]] + a[1..] && b == [b[0]] + b[1..];
      }
    }
    if a != "" {
      StrLessIrreflexive(a);
    }
  }

  lemma {:induction false} StrLessIrreflexive(a: string)
    ensures !StrLess(a, a)
  {
    if a != "" { StrLessIrreflexive(a[1..]); }
  }
}
