/** `instOrdinal`, computed on the function as it grows.  The ordinal of a site never
    decreases, and sites keep their order, so recorded ordinals increase along a worklist. */
module Ordinals {
  import opened IR
  import opened Rewrite
  import opened Insertion

  /** Instructions in the first `bi` blocks, phis and terminators included. */
  function Start(f: Function, bi: nat): nat
    requires bi <= |f.blocks|
  {
    if bi == 0 then 0
    else Start(f, bi - 1) + |f.blocks[bi - 1].phis| + |f.blocks[bi - 1].insts| + 1
  }

  /** The number of instructions in front of instruction `pos` of block `bi`; the terminator
      is at position `|insts|`. */
  function Ordinal(f: Function, bi: nat, pos: nat): nat
    requires bi < |f.blocks|
  {
    Start(f, bi) + |f.blocks[bi].phis| + pos
  }

  /** Positions are numbered one after the other through the blocks, and the phis in front of each
      block's first position count too. */
  lemma OrdinalsInOrder(f: Function, bi: nat, pos: nat)
    requires bi < |f.blocks|
    ensures bi == 0 ==> Ordinal(f, bi, 0) == |f.blocks[bi].phis|
    ensures bi + 1 < |f.blocks| ==>
              Ordinal(f, bi + 1, 0) == Ordinal(f, bi, |f.blocks[bi].insts|) + 1 + |f.blocks[bi + 1].phis|
    ensures Ordinal(f, bi, pos + 1) == Ordinal(f, bi, pos) + 1
  {
  }

  method InstOrdinal(f: Function, bi: nat, pos: nat) returns (n: nat)
    requires bi < |f.blocks| && pos <= |f.blocks[bi].insts|
    ensures n == Ordinal(f, bi, pos)
  {
    n := 0;
    var b := 0;
    while b < bi
      invariant b <= bi && n == Start(f, b)
    {
      var left: nat := |f.blocks[b].phis| + |f.blocks[b].insts| + 1;
      while left > 0
        invariant n + left == Start(f, b + 1)
      {
        n, left := n + 1, left - 1;
      }
      b := b + 1;
    }
    var left: nat := |f.blocks[bi].phis| + pos;
    while left > 0
      invariant n + left == Ordinal(f, bi, pos)
    {
      n, left := n + 1, left - 1;
    }
  }

  /** Where source instruction `j` of a block is now; `j == |insts|` is the terminator. */
  function Offset(p: Plan, bi: nat, b: Block, j: nat): nat
    requires j <= |b.insts|
  {
    if j < |b.insts| then |Lead(p, b.insts, j)| else |RewriteBlock(p, bi, b).insts|
  }

  function SiteOrdinal(p: Plan, f: Function, bi: nat, j: nat): nat
    requires bi < |f.blocks| && j <= |f.blocks[bi].insts|
  {
    Ordinal(RewriteFn(p, f), bi, Offset(p, bi, f.blocks[bi], j))
  }

  /** `q` has every alternative and literal of `p`. */
  ghost predicate Grown(p: Plan, q: Plan) {
    (forall n: nat :: |Ids(p, n)| <= |Ids(q, n)|) && (forall at :: at in p.lits ==> at in q.lits)
  }

  lemma {:induction false} ChainLength(p: Plan, i: Inst)
    requires i.dst.Src?
    ensures |ChainOf(p, i)| == 3 * Arity(p, i)
  {
  }

  lemma CopyCount(p: Plan, q: Plan, i: Inst)
    ensures |Copies(p, i)| == |Copies(q, i)|
  {
  }

  lemma ExpandGrows(p: Plan, q: Plan, i: Inst)
    requires Grown(p, q)
    ensures |Expand(p, i)| <= |Expand(q, i)| && |Before(p, i)| <= |Before(q, i)|
  {
    if i.dst.Src? {
      CopyCount(p, q, i);
      ChainLength(p, i);
      ChainLength(q, i);
      assert |Ids(p, i.dst.n)| <= |Ids(q, i.dst.n)|;
    }
  }

  lemma {:induction false} ExpandAllGrows(p: Plan, q: Plan, insts: seq<Inst>)
    requires Grown(p, q)
    ensures |ExpandAll(p, insts)| <= |ExpandAll(q, insts)|
  {
    if insts != [] {
      ExpandGrows(p, q, insts[0]);
      ExpandAllGrows(p, q, insts[1..]);
    }
  }

  lemma BlockGrows(p: Plan, q: Plan, bi: nat, b: Block, j: nat)
    requires Grown(p, q) && j <= |b.insts|
    ensures |RewriteBlock(p, bi, b).insts| <= |RewriteBlock(q, bi, b).insts|
    ensures Offset(p, bi, b, j) <= Offset(q, bi, b, j)
  {
    ExpandAllGrows(p, q, b.insts);
    if j < |b.insts| {
      ExpandAllGrows(p, q, b.insts[..j]);
      ExpandGrows(p, q, b.insts[j]);
    }
  }

  lemma {:induction false} StartMonotone(g: Function, h: Function, bi: nat)
    requires bi <= |g.blocks| == |h.blocks|
    requires forall b :: 0 <= b < bi ==>
               |g.blocks[b].phis| <= |h.blocks[b].phis| && |g.blocks[b].insts| <= |h.blocks[b].insts|
    ensures Start(g, bi) <= Start(h, bi)
  {
    if bi > 0 { StartMonotone(g, h, bi - 1); }
  }

  lemma StartGrows(p: Plan, q: Plan, f: Function, bi: nat)
    requires Grown(p, q) && bi <= |f.blocks|
    ensures Start(RewriteFn(p, f), bi) <= Start(RewriteFn(q, f), bi)
  {
    var g, h := RewriteFn(p, f), RewriteFn(q, f);
    forall b | 0 <= b < bi
      ensures |g.blocks[b].phis| <= |h.blocks[b].phis| && |g.blocks[b].insts| <= |h.blocks[b].insts|
    {
      BlockGrows(p, q, b, f.blocks[b], 0);
    }
    StartMonotone(g, h, bi);
  }

  /** Further insertions never lower the ordinal of a site. */
  lemma SiteOrdinalGrows(p: Plan, q: Plan, f: Function, bi: nat, j: nat)
    requires Grown(p, q) && bi < |f.blocks| && j <= |f.blocks[bi].insts|
    ensures SiteOrdinal(p, f, bi, j) <= SiteOrdinal(q, f, bi, j)
  {
    StartGrows(p, q, f, bi);
    BlockGrows(p, q, bi, f.blocks[bi], j);
  }

  lemma {:induction false} StartIncreases(g: Function, bi: nat, ci: nat)
    requires bi < ci <= |g.blocks|
    ensures Start(g, bi) + |g.blocks[bi].phis| + |g.blocks[bi].insts| + 1 <= Start(g, ci)
    decreases ci
  {
    if bi + 1 < ci { StartIncreases(g, bi, ci - 1); }
  }

  lemma OffsetIncreases(p: Plan, bi: nat, b: Block, j: nat, k: nat)
    requires j < k <= |b.insts|
    ensures Offset(p, bi, b, j) < Offset(p, bi, b, k)
  {
    if k < |b.insts| {
      assert b.insts[..k] == b.insts[..j] + b.insts[j..k];
      ExpandAllConcat(p, b.insts[..j], b.insts[j..k]);
      assert b.insts[j..k][0] == b.insts[j];
    } else {
      assert b.insts == b.insts[..j] + b.insts[j..];
      ExpandAllConcat(p, b.insts[..j], b.insts[j..]);
      assert b.insts[j..][0] == b.insts[j];
    }
  }

  lemma OffsetInBlock(p: Plan, bi: nat, b: Block, j: nat)
    requires j <= |b.insts|
    ensures Offset(p, bi, b, j) <= |RewriteBlock(p, bi, b).insts|
  {
    if j < |b.insts| { OffsetIncreases(p, bi, b, j, |b.insts|); }
  }

  /** A site that comes later in program order has the larger ordinal. */
  lemma SiteOrdinalIncreases(p: Plan, f: Function, bi: nat, j: nat, ci: nat, k: nat)
    requires bi < |f.blocks| && j <= |f.blocks[bi].insts| && ci < |f.blocks| && k <= |f.blocks[ci].insts|
    requires bi < ci || (bi == ci && j < k)
    ensures SiteOrdinal(p, f, bi, j) < SiteOrdinal(p, f, ci, k)
  {
    var g := RewriteFn(p, f);
    if bi < ci {
      StartIncreases(g, bi, ci);
      OffsetInBlock(p, bi, f.blocks[bi], j);
    } else {
      OffsetIncreases(p, bi, f.blocks[bi], j, k);
    }
  }
}
