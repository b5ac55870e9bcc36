/** Merging the catalogs of all binaries: the first record of every id, in report order. */
module Merge {
  import opened Scalars
  import opened Text
  import opened Keys

  /** The order of the report: file, line, id. */
  predicate Precedes(a: Mutant, b: Mutant) {
    if a.file != b.file then StrLess(a.file, b.file)
    else if a.line != b.line then a.line < b.line
    else a.id < b.id
  }

  lemma PrecedesTransitive(a: Mutant, b: Mutant, c: Mutant)
    requires Precedes(a, b) && Precedes(b, c)
    ensures Precedes(a, c)
  {
    if a.file != b.file && b.file != c.file {
      StrLessTransitive(a.file, b.file, c.file);
      StrLessTotal(a.file, b.file);
    }
  }

  lemma PrecedesTotal(a: Mutant, b: Mutant)
    ensures a.id != b.id ==> Precedes(a, b) || Precedes(b, a)
    ensures !(Precedes(a, b) && Precedes(b, a)) && !Precedes(a, a)
  {
    StrLessTotal(a.file, b.file);
  }

  ghost predicate Sorted(s: seq<Mutant>) {
    forall j, k :: 0 <= j < k < |s| ==> Precedes(s[j], s[k])
  }

  ghost predicate UniqueIds(s: seq<Mutant>) {
    forall j, k :: 0 <= j < k < |s| ==> s[j].id != s[k].id
  }

  // ---------------------------------------------------------------- the first record of each id

  function Concat(groups: seq<seq<Mutant>>): seq<Mutant> {
    if groups == [] then [] else Concat(groups[..|groups| - 1]) + groups[|groups| - 1]
  }

  function Ids(ms: seq<Mutant>): set<u32> {
    set m | m in ms :: m.id
  }

  function Firsts(ms: seq<Mutant>): seq<Mutant> {
    if ms == [] then [] else
      var front, last := ms[..|ms| - 1], ms[|ms| - 1];
      Firsts(front) + if last.id in Ids(front) then [] else [last]
  }

  /** The place of the first record with this id. */
  function FirstAt(ms: seq<Mutant>, id: u32): (k: nat)
    requires id in Ids(ms)
    ensures k < |ms| && ms[k].id == id && forall j :: 0 <= j < k ==> ms[j].id != id
  {
    if ms[0].id == id then 0 else
      assert forall m :: m in ms && m != ms[0] ==> m in ms[1..];
      1 + FirstAt(ms[1..], id)
  }

  lemma IdsMore(ms: seq<Mutant>, m: Mutant)
    ensures Ids(ms + [m]) == Ids(ms) + {m.id}
  {
    assert m in ms + [m];
    assert forall x :: x in ms ==> x in ms + [m];
  }

  lemma FirstAtMore(ms: seq<Mutant>, m: Mutant, id: u32)
    requires id in Ids(ms)
    ensures id in Ids(ms + [m]) && (ms + [m])[FirstAt(ms + [m], id)] == ms[FirstAt(ms, id)]
  {
    IdsMore(ms, m);
    var j, k := FirstAt(ms, id), FirstAt(ms + [m], id);
    assert (ms + [m])[j].id == id;
    assert j == k;
  }

  /** Deduplication keeps exactly the first record of every id. */
  lemma {:induction false} FirstsMeans(ms: seq<Mutant>)
    ensures UniqueIds(Firsts(ms)) && Ids(Firsts(ms)) == Ids(ms)
    ensures forall m :: m in Firsts(ms) ==> m in ms && m.id in Ids(ms) && m == ms[FirstAt(ms, m.id)]
  {
    if ms != [] {
      var front, last := ms[..|ms| - 1], ms[|ms| - 1];
      assert ms == front + [last];
      FirstsMeans(front);
      IdsMore(front, last);
      IdsMore(Firsts(front), last);
      forall m | m in Firsts(ms)
        ensures m in ms && m.id in Ids(ms) && m == ms[FirstAt(ms, m.id)]
      {
        if m in Firsts(front) {
          FirstAtMore(front, last, m.id);
        } else {
          LastIsFirst(front, last);
        }
      }
    }
  }

  lemma LastIsFirst(front: seq<Mutant>, last: Mutant)
    requires last.id !in Ids(front)
    ensures last.id in Ids(front + [last]) && (front + [last])[FirstAt(front + [last], last.id)] == last
  {
    IdsMore(front, last);
    var ms := front + [last];
    var k := FirstAt(ms, last.id);
    assert forall j :: 0 <= j < |front| ==> front[j].id in Ids(front);
  }

  // ---------------------------------------------------------------- sorting

  function Insert(x: Mutant, s: seq<Mutant>): seq<Mutant> {
    if s == [] || Precedes(x, s[0]) then [x] + s else [s[0]] + Insert(x, s[1..])
  }

  function Sort(s: seq<Mutant>): seq<Mutant> {
    if s == [] then [] else Insert(s[|s| - 1], Sort(s[..|s| - 1]))
  }

  lemma {:induction false} InsertMember(x: Mutant, s: seq<Mutant>, y: Mutant)
    ensures y in Insert(x, s) <==> y == x || y in s
  {
    if s != [] && !Precedes(x, s[0]) {
      InsertMember(x, s[1..], y);
      assert y in s <==> y == s[0] || y in s[1..];
    }
  }

  lemma {:induction false} InsertSorted(x: Mutant, s: seq<Mutant>)
    requires Sorted(s) && forall k :: 0 <= k < |s| ==> s[k].id != x.id
    ensures Sorted(Insert(x, s))
  {
    if s != [] {
      PrecedesTotal(x, s[0]);
      if Precedes(x, s[0]) {
        forall k | 0 <= k < |s|
          ensures Precedes(x, s[k])
        {
          if k > 0 { PrecedesTransitive(x, s[0], s[k]); }
        }
      } else {
        InsertSorted(x, s[1..]);
        forall y | y in Insert(x, s[1..])
          ensures Precedes(s[0], y)
        {
          InsertMember(x, s[1..], y);
        }
      }
    }
  }

  lemma {:induction false} SortMeans(s: seq<Mutant>)
    requires UniqueIds(s)
    ensures Sorted(Sort(s)) && forall m :: m in Sort(s) <==> m in s
  {
    if s != [] {
      var front, last := s[..|s| - 1], s[|s| - 1];
      SortMeans(front);
      assert forall k :: 0 <= k < |Sort(front)| ==> Sort(front)[k] in Sort(front);
      InsertSorted(last, Sort(front));
      forall m
        ensures m in Sort(s) <==> m in s
      {
        InsertMember(last, Sort(front), m);
        assert s == front + [last];
      }
    }
  }

  lemma SortedTail(a: seq<Mutant>)
    requires Sorted(a) && a != []
    ensures Sorted(a[1..]) && a[0] !in a[1..] && forall x :: x in a[1..] <==> x in a && x != a[0]
  {
    forall k | 0 < k < |a|
      ensures a[k] != a[0]
    {
      PrecedesTotal(a[0], a[0]);
      assert Precedes(a[0], a[k]);
    }
  }

  /** There is one sorted list of a set of records. */
  lemma {:induction false} SortedUnique(a: seq<Mutant>, b: seq<Mutant>)
    requires Sorted(a) && Sorted(b) && forall x :: x in a <==> x in b
    ensures a == b
  {
    assert b == [] || b[0] in a;
    if a != [] {
      assert a[0] in b && b[0] in a;
      PrecedesTotal(a[0], b[0]);
      assert a[0] == b[0];
      SortedTail(a);
      SortedTail(b);
      SortedUnique(a[1..], b[1..]);
      assert a == [a[0]] + a[1..] && b == [b[0]] + b[1..];
    }
  }

  /** The library sort, by repeated insertion. */
  method SortMutants(s: seq<Mutant>) returns (r: seq<Mutant>)
    ensures r == Sort(s)
  {
    r := [];
    for k := 0 to |s|
      invariant r == Sort(s[..k])
    {
      assert s[..k + 1][..k] == s[..k];
      r := Insert(s[k], r);
    }
    assert s[..|s|] == s;
  }

  // ---------------------------------------------------------------- merging

  function Merged(groups: seq<seq<Mutant>>): seq<Mutant> {
    Sort(Firsts(Concat(groups)))
  }

  /** The inner loop: one group. */
  method MergeGroup(all: seq<Mutant>, seen: set<u32>, group: seq<Mutant>, ghost before: seq<Mutant>)
    returns (all': seq<Mutant>, seen': set<u32>)
    requires all == Firsts(before) && seen == Ids(before)
    ensures all' == Firsts(before + group) && seen' == Ids(before + group)
  {
    all', seen' := all, seen;
    assert before + group[..0] == before;
    for k := 0 to |group|
      invariant all' == Firsts(before + group[..k]) && seen' == Ids(before + group[..k])
    {
      OneMore(before, group, k);
      if group[k].id !in seen' {
        seen' := seen' + {group[k].id};
        all' := all' + [group[k]];
      }
    }
    assert group[..|group|] == group;
  }

  method MergeMutants(groups: seq<seq<Mutant>>) returns (all: seq<Mutant>)
    ensures all == Merged(groups)
  {
    all := [];
    var seen: set<u32> := {};
    for g := 0 to |groups|
      invariant all == Firsts(Concat(groups[..g])) && seen == Ids(Concat(groups[..g]))
    {
      assert groups[..g + 1][..g] == groups[..g];
      all, seen := MergeGroup(all, seen, groups[g], Concat(groups[..g]));
    }
    assert groups[..|groups|] == groups;
    all := SortMutants(all);
  }

  lemma OneMore(before: seq<Mutant>, group: seq<Mutant>, k: nat)
    requires k < |group|
    ensures var ms, more := before + group[..k], before + group[..k + 1];
            && Ids(more) == Ids(ms) + {group[k].id}
            && Firsts(more) == if group[k].id in Ids(ms) then Firsts(ms) else Firsts(ms) + [group[k]]
  {
    var ms := before + group[..k];
    assert before + group[..k + 1] == ms + [group[k]];
    assert (ms + [group[k]])[..|ms|] == ms;
    IdsMore(ms, group[k]);
    assert Firsts(ms) + [] == Firsts(ms);
  }

  /** The merged list: strictly sorted, one record per id of the union, the first one met. */
  lemma MergeMeans(groups: seq<seq<Mutant>>)
    ensures var r, ms := Merged(groups), Concat(groups);
            && Sorted(r) && UniqueIds(r) && Ids(r) == Ids(ms)
            && forall m :: m in r ==> m.id in Ids(ms) && m == ms[FirstAt(ms, m.id)]
  {
    var ms := Concat(groups);
    FirstsMeans(ms);
    SortMeans(Firsts(ms));
    assert Ids(Merged(groups)) == Ids(Firsts(ms));
    SortedIds(Merged(groups), Firsts(ms));
  }

  /** The order of the report: files ascend lexicographically, in one file the lines ascend, and on one
      line the ids. */
  lemma MergeOrder(groups: seq<seq<Mutant>>, j: nat, k: nat)
    requires j < k < |Merged(groups)|
    ensures var a, b := Merged(groups)[j], Merged(groups)[k];
            && (a.file == b.file || Below(a.file, b.file))
            && (a.file == b.file ==> a.line <= b.line)
            && (a.file == b.file && a.line == b.line ==> a.id < b.id)
  {
    MergeMeans(groups);
    var a, b := Merged(groups)[j], Merged(groups)[k];
    assert Precedes(a, b);
    StrLessExact(a.file, b.file);
  }

  /** The same for a single catalog. */
  lemma MergeOne(ms: seq<Mutant>)
    ensures var r := Merged([ms]);
            && Sorted(r) && UniqueIds(r) && Ids(r) == Ids(ms)
            && (forall m :: m in r ==> m in ms) && (r == [] <==> ms == [])
  {
    MergeMeans([ms]);
    assert [ms][..0] == [] && Concat([]) == [];
    assert Concat([ms]) == [] + ms == ms;
    NoIds(ms);
    NoIds(Merged([ms]));
  }

  /** Records whose ids tell them apart all stay. */
  lemma MergeKeeps(ms: seq<Mutant>, m: Mutant)
    requires forall x, y :: 0 <= x < y < |ms| ==> ms[x].id != ms[y].id
    requires m in ms
    ensures m in Merged([ms])
  {
    MergeOne(ms);
    assert m.id in Ids(ms);
    var r :| r in Merged([ms]) && r.id == m.id;
    assert r in ms;
  }

  lemma NoIds(ms: seq<Mutant>)
    ensures Ids(ms) == {} <==> ms == []
  {
    if ms != [] { assert ms[0].id in Ids(ms); }
  }

  lemma SortedIds(r: seq<Mutant>, s: seq<Mutant>)
    requires Sorted(r) && UniqueIds(s) && forall m :: m in r <==> m in s
    ensures UniqueIds(r)
  {
    forall j, k | 0 <= j < k < |r|
      ensures r[j].id != r[k].id
    {
      PrecedesTotal(r[j], r[j]);
      assert r[j] in s && r[k] in s && r[j] != r[k];
    }
  }

  /** Records with equal ids are equal. */
  ghost predicate Consistent(ms: seq<Mutant>) {
    forall a, b :: a in ms && b in ms && a.id == b.id ==> a == b
  }

  /** With consistent catalogs the result depends only on which records there are: neither the
      order of binaries nor of records, nor repetitions, matter. */
  lemma MergeCanonical(groups: seq<seq<Mutant>>, others: seq<seq<Mutant>>)
    requires Consistent(Concat(groups)) && forall m :: m in Concat(groups) <==> m in Concat(others)
    ensures Merged(groups) == Merged(others)
  {
    SameRecords(groups);
    SameRecords(others);
    SortMeans(Firsts(Concat(groups)));
    SortMeans(Firsts(Concat(others)));
    SortedUnique(Merged(groups), Merged(others));
  }

  lemma SameRecords(groups: seq<seq<Mutant>>)
    requires Consistent(Concat(groups))
    ensures UniqueIds(Firsts(Concat(groups)))
    ensures forall m :: m in Merged(groups) <==> m in Concat(groups)
  {
    var ms := Concat(groups);
    FirstsMeans(ms);
    SortMeans(Firsts(ms));
    forall m | m in ms
      ensures m in Firsts(ms)
    {
      assert m.id in Ids(Firsts(ms));
      var f :| f in Firsts(ms) && f.id == m.id;
    }
  }
}
