/** With distinct ids, selecting an id applies one mutant and no other: the program that
    the instrumented binary imitates is a first-order mutant of the source. */
module FirstOrder {
  import opened Scalars
  import opened IR
  import opened Mutants
  import opened Rewrite
  import opened Fidelity

  /** One catalogued mutant: alternative `k` of a site, or a literal. */
  datatype MutantRef = AltRef(fn: nat, site: nat, k: nat) | LitRef(fn: nat, at: LitSite)

  predicate Listed(plans: seq<Plan>, r: MutantRef) {
    && r.fn < |plans|
    && match r
       case AltRef(fn, n, k) => k < |Ids(plans[fn], n)|
       case LitRef(fn, at) => at in plans[fn].lits
  }

  function IdOf(plans: seq<Plan>, r: MutantRef): u32
    requires Listed(plans, r)
  {
    match r
    case AltRef(fn, n, k) => Ids(plans[fn], n)[k]
    case LitRef(fn, at) => plans[fn].lits[at]
  }

  ghost predicate DistinctIds(plans: seq<Plan>) {
    forall r, s :: Listed(plans, r) && Listed(plans, s) && IdOf(plans, r) == IdOf(plans, s) ==> r == s
  }

  function Flip(op: Operand): Operand {
    if IsLit(op) then Const(op.width, 1 - op.value) else op
  }

  function ApplyInst(r: MutantRef, i: Inst): Inst {
    match (r, i)
    case (AltRef(_, n, k), Bin(d, op, w, a, b, loc)) =>
      if d == Src(n) && k < |BinAlts(op, w)| then Bin(d, BinAlts(op, w)[k].op, w, a, b, loc) else i
    case (AltRef(_, n, k), Cmp(d, p, w, a, b, loc)) =>
      if d == Src(n) && k < |PredAlts(p)| then Cmp(d, PredAlts(p)[k], w, a, b, loc) else i
    case (LitRef(_, CmpLit(n, oi)), Cmp(d, p, w, a, b, loc)) =>
      if d == Src(n) && oi == 0 then Cmp(d, p, w, Flip(a), b, loc)
      else if d == Src(n) && oi == 1 then Cmp(d, p, w, a, Flip(b), loc)
      else i
    case _ => i
  }

  function ApplyTerm(r: MutantRef, bi: nat, t: Term): Term {
    if r.LitRef? && r.at == RetLit(bi) && t.Return? && t.value.Some?
    then Return(Some(Flip(t.value.value)), t.loc) else t
  }

  function ApplyInsts(r: MutantRef, insts: seq<Inst>): (s: seq<Inst>)
    ensures |s| == |insts| && forall j :: 0 <= j < |insts| ==> s[j] == ApplyInst(r, insts[j])
  {
    if insts == [] then [] else [ApplyInst(r, insts[0])] + ApplyInsts(r, insts[1..])
  }

  function ApplyBlock(r: MutantRef, bi: nat, b: Block): Block {
    Block(b.phis, ApplyInsts(r, b.insts), ApplyTerm(r, bi, b.term))
  }

  function ApplyFn(r: MutantRef, f: Function): Function {
    Function(f.name, f.params,
             seq(|f.blocks|, bi requires 0 <= bi < |f.blocks| => ApplyBlock(r, bi, f.blocks[bi])))
  }

  /** The source with that one operator, predicate or literal replaced. */
  function Apply(m: Module, r: MutantRef): Module
    requires r.fn < |m|
  {
    m[r.fn := ApplyFn(r, m[r.fn])]
  }

  lemma ChosenUnique(ids: seq<u32>, a: u32, k: nat)
    requires k < |ids| && ids[k] == a
    requires forall j :: 0 <= j < |ids| && ids[j] == a ==> j == k
    ensures Chosen(ids, a) == k
  {
  }

  lemma ApplyInstExact(plans: seq<Plan>, m: Module, r: MutantRef, fi: nat, i: Inst)
    requires Fits(plans, m) && DistinctIds(plans) && Listed(plans, r)
    requires fi < |m| && SrcInst(i) && FitsInst(plans[fi], i)
    ensures MutInst(plans[fi], IdOf(plans, r), i) == if fi == r.fn then ApplyInst(r, i) else i
  {
    var p, a, n := plans[fi], IdOf(plans, r), i.dst.n;
    var ids := Ids(p, n);
    assert ids[..|ids|] == ids;
    forall j: nat | j < |ids| && ids[j] == a
      ensures r == AltRef(fi, n, j)
    {
      assert Listed(plans, AltRef(fi, n, j)) && IdOf(plans, AltRef(fi, n, j)) == a;
    }
    if r.AltRef? && r.fn == fi && r.site == n {
      ChosenUnique(ids, a, r.k);
    }
    if i.Cmp? {
      LitExact(plans, r, fi, CmpLit(n, 0));
      LitExact(plans, r, fi, CmpLit(n, 1));
    }
  }

  lemma LitExact(plans: seq<Plan>, r: MutantRef, fi: nat, at: LitSite)
    requires DistinctIds(plans) && Listed(plans, r) && fi < |plans|
    ensures at in plans[fi].lits && plans[fi].lits[at] == IdOf(plans, r) <==> r == LitRef(fi, at)
  {
    if at in plans[fi].lits {
      assert Listed(plans, LitRef(fi, at));
    }
  }

  lemma {:induction false} ApplyInstsExact(plans: seq<Plan>, m: Module, r: MutantRef, fi: nat, insts: seq<Inst>)
    requires Fits(plans, m) && DistinctIds(plans) && Listed(plans, r) && fi < |m|
    requires forall i :: i in insts ==> HasInst(m[fi], i)
    ensures MutInsts(plans[fi], IdOf(plans, r), insts) == if fi == r.fn then ApplyInsts(r, insts) else insts
  {
    if insts != [] {
      HasInstFits(plans, m, fi, insts[0]);
      ApplyInstExact(plans, m, r, fi, insts[0]);
      ApplyInstsExact(plans, m, r, fi, insts[1..]);
    }
  }

  lemma ApplyBlockExact(plans: seq<Plan>, m: Module, r: MutantRef, fi: nat, bi: nat)
    requires Fits(plans, m) && DistinctIds(plans) && Listed(plans, r)
    requires fi < |m| && bi < |m[fi].blocks|
    ensures var b := m[fi].blocks[bi];
            MutBlock(plans[fi], IdOf(plans, r), bi, b) == if fi == r.fn then ApplyBlock(r, bi, b) else b
  {
    ApplyInstsExact(plans, m, r, fi, m[fi].blocks[bi].insts);
    LitExact(plans, r, fi, RetLit(bi));
    ApplyTermExact(plans[fi], IdOf(plans, r), r, fi, bi, m[fi].blocks[bi].term);
  }

  lemma ApplyTermExact(p: Plan, a: u32, r: MutantRef, fi: nat, bi: nat, t: Term)
    requires RetLit(bi) in p.lits && p.lits[RetLit(bi)] == a <==> r == LitRef(fi, RetLit(bi))
    requires fi != r.fn ==> r != LitRef(fi, RetLit(bi))
    ensures MutTerm(p, a, bi, t) == if fi == r.fn then ApplyTerm(r, bi, t) else t
  {
  }

  /** Selecting the id of a listed mutant applies that mutant only. */
  lemma OneMutant(plans: seq<Plan>, m: Module, r: MutantRef)
    requires Fits(plans, m) && DistinctIds(plans) && Listed(plans, r)
    ensures MutModule(plans, IdOf(plans, r), m) == Apply(m, r)
  {
    forall fi, bi | 0 <= fi < |m| && 0 <= bi < |m[fi].blocks|
      ensures MutBlock(plans[fi], IdOf(plans, r), bi, m[fi].blocks[bi]) ==
              if fi == r.fn then ApplyBlock(r, bi, m[fi].blocks[bi]) else m[fi].blocks[bi]
    {
      ApplyBlockExact(plans, m, r, fi, bi);
    }
    forall fi | 0 <= fi < |m|
      ensures MutFn(plans[fi], IdOf(plans, r), m[fi]) == if fi == r.fn then ApplyFn(r, m[fi]) else m[fi]
    {
      assert MutFn(plans[fi], IdOf(plans, r), m[fi]).blocks ==
             if fi == r.fn then ApplyFn(r, m[fi]).blocks else m[fi].blocks;
    }
  }

  /** The instrumented program with one listed id active is that first-order mutant, up to
      the traps of eager evaluation. */
  lemma InstrumentedIsMutant(plans: seq<Plan>, m: Module, r: MutantRef, world: seq<Event> -> Option<Word>,
                             fi: nat, args: seq<Word>, fuel: nat)
    requires Fits(plans, m) && DistinctIds(plans) && Listed(plans, r)
    ensures var cfg := Config(IdOf(plans, r), world);
            var o := RunFn(Apply(m, r), cfg, fi, args, START, fuel);
            var o' := RunFn(RewriteModule(plans, m), cfg, fi, args, START, fuel);
            if forall e :: e in o.st.ops ==> !Diverges(plans, m, e)
            then o'.res == o.res && o'.st.trace == o.st.trace
            else o'.res == Trap && StopsFirst(plans, m, o.st, o'.st.trace)
  {
    OneMutant(plans, m, r);
    MutantFidelity(plans, m, Config(IdOf(plans, r), world), fi, args, fuel);
  }
}
