/** Laws of sequence concatenation, proved once for any element type. */
module Seqs {

  lemma Assoc<T>(a: seq<T>, b: seq<T>, c: seq<T>)
    ensures a + (b + c) == (a + b) + c
  {
  }

  lemma Regroup<T>(a: seq<T>, b: seq<T>, c: seq<T>, d: seq<T>, e: seq<T>)
    ensures a + ((b + c + d) + e) == (a + b) + c + d + e
  {
  }

  lemma Split<T>(s: seq<T>, j: nat)
    requires j < |s|
    ensures s == s[..j] + s[j..] && s[j..] != [] && s[j..][0] == s[j] && s[j..][1..] == s[j + 1..]
  {
  }

  /** `t` is `s` with `more` inserted behind the third of its segments. */
  lemma InsertMiddle<T>(s: seq<T>, t: seq<T>, a: seq<T>, b: seq<T>, c: seq<T>, d: seq<T>, more: seq<T>, at: nat)
    requires s == a + b + c + d && t == a + b + (c + more) + d && at == |a| + |b| + |c|
    ensures at <= |s| && t == s[..at] + more + s[at..]
  {
    assert s[..at] == a + b + c;
    assert s[at..] == d;
  }

  /** `t` is `s` with one element replaced by `more` and another element. */
  lemma ReplaceOne<T>(s: seq<T>, t: seq<T>, a: seq<T>, x: T, y: T, c: seq<T>, d: seq<T>, more: seq<T>, at: nat)
    requires s == a + [x] + c + d && t == (a + more) + [y] + c + d && at == |a|
    ensures at < |s| && t == s[..at] + (more + [y]) + s[at + 1..]
  {
    assert s[..at] == a;
    assert s[at + 1..] == c + d;
  }

  lemma Front<T>(a: seq<T>, c: T, d: seq<T>)
    ensures var s := a + [c] + d;
            s[|a|] == c && forall q :: 0 <= q < |a| ==> s[q] == a[q]
  {
  }

  lemma FrontLast<T>(s: seq<T>)
    requires s != []
    ensures s == s[..|s| - 1] + [s[|s| - 1]]
  {
  }

  lemma SamePrefix<T>(a: seq<T>, b: seq<T>, n: nat)
    requires a <= b && n <= |a|
    ensures b[..n] == a[..n] && (n < |a| ==> b[n] == a[n])
  {
    assert a == b[..|a|];
  }
}
