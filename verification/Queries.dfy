/** Which ids a run can hand to the runtime: those that the program asks about, and for an
    instrumented program those are the source's own and the ids of its mutants. */
module Queries {
  import opened Scalars
  import opened IR
  import opened Rewrite
  import opened FirstOrder

  /** The id of some alternative or literal of the plan. */
  ghost predicate Carries(p: Plan, id: u32) {
    || (exists n: nat :: id in Ids(p, n))
    || (exists at :: at in p.lits && p.lits[at] == id)
  }

  lemma {:induction false} ChainAsks(p: Plan, n: nat, copies: seq<Inst>, ids: seq<u32>, k: nat, i: Inst)
    requires k <= |copies| && k <= |ids| && i in Chain(n, copies, ids, k) && i.Active?
    requires forall c :: c in copies ==> !c.Active?
    ensures i.id in ids
    decreases k
  {
    if i in Chain(n, copies, ids, k - 1) {
      ChainAsks(p, n, copies, ids, k - 1, i);
    } else {
      assert copies[k - 1] in copies;
      assert i in Link(n, k - 1, copies[k - 1], ids[k - 1]);
    }
  }

  lemma LitAsks(p: Plan, at: LitSite, op: Operand, i: Inst)
    requires i in LitCode(p, at, op) && i.Active?
    ensures Carries(p, i.id)
  {
    assert at in p.lits && p.lits[at] == i.id;
  }

  /** A question in the expansion of an instruction is the instruction or carries a mutant's id. */
  lemma ExpandAsks(p: Plan, s: Inst, i: Inst)
    requires i in Expand(p, s) && i.Active?
    ensures i == s || Carries(p, i.id)
  {
    if i in Before(p, s) {
      if i in LitCode(p, CmpLit(s.dst.n, 0), s.a) {
        LitAsks(p, CmpLit(s.dst.n, 0), s.a, i);
      } else {
        LitAsks(p, CmpLit(s.dst.n, 1), s.b, i);
      }
    } else if i in ChainOf(p, s) {
      ChainAsks(p, s.dst.n, Copies(p, s), Ids(p, s.dst.n), Arity(p, s), i);
    }
  }

  lemma {:induction false} ExpandAllAsks(p: Plan, insts: seq<Inst>, i: Inst)
    requires i in ExpandAll(p, insts) && i.Active?
    ensures i in insts || Carries(p, i.id)
  {
    if i in Expand(p, insts[0]) {
      ExpandAsks(p, insts[0], i);
    } else {
      ExpandAllAsks(p, insts[1..], i);
    }
  }

  lemma BlockAsks(p: Plan, bi: nat, b: Block, i: Inst)
    requires i in RewriteBlock(p, bi, b).insts && i.Active?
    ensures i in b.insts || Carries(p, i.id)
  {
    if i in ExpandAll(p, b.insts) {
      ExpandAllAsks(p, b.insts, i);
    } else {
      LitAsks(p, RetLit(bi), b.term.value.value, i);
    }
  }

  /** What the instrumented module asks about. */
  lemma RewriteAsks(plans: seq<Plan>, m: Module, id: u32)
    requires |plans| == |m| && Asks(RewriteModule(plans, m), id)
    ensures Asks(m, id) || exists r :: Listed(plans, r) && IdOf(plans, r) == id
  {
    var fi: nat, i :| fi < |m| && HasInst(RewriteModule(plans, m)[fi], i) && AsksFor(i, id);
    var g := RewriteFn(plans[fi], m[fi]);
    assert HasInst(g, i);
    var bi :| 0 <= bi < |g.blocks| && i in g.blocks[bi].insts;
    BlockAsks(plans[fi], bi, m[fi].blocks[bi], i);
    if i in m[fi].blocks[bi].insts {
      assert HasInst(m[fi], i);
    } else {
      CarriedIsListed(plans, fi, id);
    }
  }

  lemma CarriedIsListed(plans: seq<Plan>, fi: nat, id: u32)
    requires fi < |plans| && Carries(plans[fi], id)
    ensures exists r :: Listed(plans, r) && IdOf(plans, r) == id
  {
    var p := plans[fi];
    if n: nat :| id in Ids(p, n) {
      var k :| 0 <= k < |Ids(p, n)| && Ids(p, n)[k] == id;
      assert Listed(plans, AltRef(fi, n, k)) && IdOf(plans, AltRef(fi, n, k)) == id;
    } else {
      var at :| at in p.lits && p.lits[at] == id;
      assert Listed(plans, LitRef(fi, at)) && IdOf(plans, LitRef(fi, at)) == id;
    }
  }
}
